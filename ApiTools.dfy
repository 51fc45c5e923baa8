/**
 * `src/tools/api-tools-generator.ts`: the tool list built from the `paths`
 * object of an OpenAPI definition. Each operation of each path becomes a
 * tool whose name is derived from the path and the method, with its
 * parameters read from the operation's `parameters` and from the
 * properties of its JSON request body.
 *
 * The definition is a JSON value; the model keeps the parts the generator
 * reads. An absent or empty string stands for a falsy field, an absent
 * `parameters` list for an empty one, and object keys keep their order.
 */
module ApiTools {
  import opened Text
  import opened ToolNaming

  /** An entry of an operation's `parameters`; `required` is `param.required === true`. */
  datatype Param = Param(name: string, description: string, required: bool)

  /** A property of a request body schema. */
  datatype Property = Property(name: string, description: string)

  /** A body schema: its `properties` (absent, or the entries in order) and its `required` list. */
  datatype BodySchema = BodySchema(properties: Option<seq<Property>>, required: seq<string>)

  /** A media type of `requestBody.content`, with or without a `schema`. */
  datatype MediaType = MediaType(schema: Option<BodySchema>)

  /** `requestBody`: its `required` flag and the JSON and form-encoded media types, when present. */
  datatype RequestBody = RequestBody(required: bool, json: Option<MediaType>, form: Option<MediaType>)

  datatype Operation = Operation(
    operationId: string,
    summary: string,
    description: string,
    parameters: seq<Param>,
    requestBody: Option<RequestBody>)

  /**
   * The value stored under a key of a path item: an object, `null`, or a
   * string, number or boolean. An array passes the `typeof operation !==
   * 'object'` test too, and the source builds a tool from it; in the model it
   * is an `Op` whose fields are all empty, which is what reading those fields
   * off an array gives.
   */
  datatype PathValue = Op(op: Operation) | Null | Scalar

  datatype Entry = Entry(key: string, value: PathValue)

  /** A path and its path item. */
  datatype PathEntry = PathEntry(path: string, item: seq<Entry>)

  datatype ToolParam = ToolParam(name: string, description: string, required: bool, kind: ParamKind)

  datatype Tool = Tool(
    name: string,
    description: string,
    parameters: seq<ToolParam>,
    path: string,
    httpMethod: string,
    operationId: Option<string>)

  /** `extractResourceFromPath`: the first non-empty segment, or `resource`. */
  function ExtractResource(path: string): (r: string)
    ensures r != []
    ensures Segments(path) != [] ==> r == Segments(path)[0]
    ensures Segments(path) == [] ==> r == "resource"
  {
    var segs := Segments(path);
    if |segs| > 0 then segs[0] else "resource"
  }

  /** The resource of `/r` followed by more path is `r`. */
  lemma ExtractResourceOf(r: string, t: string)
    requires r != [] && '/' !in r && (t == [] || t[0] == '/')
    ensures ExtractResource("/" + r + t) == r
  {
    SegmentsOf(r, t);
  }

  /**
   * The name `generateToolName` derives from a resource: the action, the
   * capitalised resource (singular for a GET on a path with a parameter)
   * and `ById` for a path with a parameter unless the action is `create`
   * or `list`.
   */
  function DerivedName(resource0: string, path: string, verb: string): string {
    var hasPathParam := '{' in path;
    var resource := if hasPathParam && Lower(verb) == "get" then Singularize(resource0) else resource0;
    var action := Action(verb, hasPathParam);
    var byId := if hasPathParam && action != "create" && action != "list" then "ById" else "";
    action + Capitalize(resource) + byId
  }

  /** `generateToolName`: a non-empty `operationId` as it is, otherwise the name derived from the first segment. */
  function ToolName(path: string, verb: string, operationId: string): string
  {
    if operationId != [] then operationId else DerivedName(ExtractResource(path), path, verb)
  }

  /** A given `operationId` wins over every derived name. */
  lemma ToolNameKeepsOperationId(path: string, verb: string, operationId: string)
    requires operationId != []
    ensures ToolName(path, verb, operationId) == operationId
  {
  }

  /** Without a path parameter, a GET lists. */
  lemma DerivedList(resource: string, path: string, verb: string)
    requires '{' !in path && Lower(verb) == "get"
    ensures DerivedName(resource, path, verb) == "list" + Capitalize(resource)
  {
    assert Action(verb, false) == "list";
  }

  /** With a path parameter, a GET gets one, named in the singular. */
  lemma DerivedGetById(resource: string, path: string, verb: string)
    requires '{' in path && Lower(verb) == "get"
    ensures DerivedName(resource, path, verb) == "get" + Capitalize(Singularize(resource)) + "ById"
  {
    assert Action(verb, true) == "get";
  }

  /** `GET /things` lists: `listThings`. */
  lemma ListName(r: string, verb: string)
    requires r != [] && '/' !in r && '{' !in r && Lower(verb) == "get"
    ensures ToolName("/" + r, verb, "") == "list" + Capitalize(r)
  {
    ExtractResourceOf(r, []);
    assert "/" + r + [] == "/" + r;
    DerivedList(r, "/" + r, verb);
  }

  /** `POST /things…` creates, without `ById` and without singularising: `createThings`. */
  lemma CreateName(r: string, t: string, verb: string)
    requires r != [] && '/' !in r && (t == [] || t[0] == '/') && Lower(verb) == "post"
    ensures ToolName("/" + r + t, verb, "") == "create" + Capitalize(r)
  {
    ExtractResourceOf(r, t);
  }

  /** `GET /things/{id}` gets one: `getThingById`, singular. */
  lemma GetByIdName(r: string, x: string, verb: string)
    requires r != [] && '/' !in r && Lower(verb) == "get"
    ensures ToolName("/" + r + "/{" + x + "}", verb, "") == "get" + Capitalize(Singularize(r)) + "ById"
  {
    var t := "/{" + x + "}";
    assert "/" + r + "/{" + x + "}" == "/" + r + t;
    ExtractResourceOf(r, t);
    assert ("/" + r + t)[|r| + 2] == '{';
    DerivedGetById(r, "/" + r + t, verb);
  }

  /** `PUT` or `PATCH /things/{id}` keeps the plural: `updateThingsById`. */
  lemma UpdateByIdName(r: string, x: string, verb: string)
    requires r != [] && '/' !in r && (Lower(verb) == "put" || Lower(verb) == "patch")
    ensures ToolName("/" + r + "/{" + x + "}", verb, "") == "update" + Capitalize(r) + "ById"
  {
    var t := "/{" + x + "}";
    assert "/" + r + "/{" + x + "}" == "/" + r + t;
    ExtractResourceOf(r, t);
    assert ("/" + r + t)[|r| + 2] == '{';
  }

  /** One entry of `operation.parameters` as a tool parameter. */
  function ParamFor(path: string, verb: string, p: Param, pathParams: seq<string>): ToolParam {
    ToolParam(p.name, OrElse(p.description, p.name + " parameter"), p.required,
      DetectParameterType(path, p.name, verb, pathParams))
  }

  /** The parameters from `operation.parameters`, in order. */
  function ParamsFrom(path: string, verb: string, ps: seq<Param>, pathParams: seq<string>): (r: seq<ToolParam>)
    ensures |r| == |ps|
    ensures forall i :: 0 <= i < |ps| ==> r[i] == ParamFor(path, verb, ps[i], pathParams)
  {
    if ps == [] then []
    else ParamsFrom(path, verb, ps[..|ps| - 1], pathParams) + [ParamFor(path, verb, ps[|ps| - 1], pathParams)]
  }

  /** One property of the request body as a body parameter. */
  function PropertyFor(prop: Property, required: seq<string>): ToolParam {
    ToolParam(prop.name, OrElse(prop.description, prop.name + " parameter"), prop.name in required, InBody)
  }

  function PropertiesFrom(props: seq<Property>, required: seq<string>): (r: seq<ToolParam>)
    ensures |r| == |props|
    ensures forall i :: 0 <= i < |props| ==> r[i] == PropertyFor(props[i], required)
  {
    if props == [] then []
    else PropertiesFrom(props[..|props| - 1], required) + [PropertyFor(props[|props| - 1], required)]
  }

  /** `content['application/json'] || content['application/x-www-form-urlencoded']`. */
  function BodyMedia(rb: RequestBody): Option<MediaType> {
    if rb.json.Some? then rb.json else rb.form
  }

  /** The body schema with properties the generator reads, if there is one. */
  function BodyProperties(op: Operation): Option<(seq<Property>, seq<string>)> {
    match op.requestBody
    case None => None
    case Some(rb) =>
      match BodyMedia(rb)
      case None => None
      case Some(media) =>
        match media.schema
        case None => None
        case Some(schema) =>
          if schema.properties.Some? then Some((schema.properties.value, schema.required)) else None
  }

  /** The body parameters: one per property of the body schema, if it has properties. */
  function BodyParams(op: Operation): seq<ToolParam> {
    match BodyProperties(op)
    case None => []
    case Some(body) => PropertiesFrom(body.0, body.1)
  }

  /** `generateParameters`: the listed parameters, then the body parameters. */
  function Parameters(path: string, verb: string, op: Operation, pathParams: seq<string>): seq<ToolParam> {
    ParamsFrom(path, verb, op.parameters, pathParams) + BodyParams(op)
  }

  /** The listed parameters come first, in order; every later one is a body property, required iff listed as required. */
  lemma ParametersOrder(path: string, verb: string, op: Operation, pathParams: seq<string>)
    ensures var r := Parameters(path, verb, op, pathParams);
      && |op.parameters| <= |r|
      && (forall i :: 0 <= i < |op.parameters| ==>
            r[i].name == op.parameters[i].name && r[i].kind == DetectParameterType(path, op.parameters[i].name, verb, pathParams))
      && (BodyProperties(op).None? ==> |r| == |op.parameters|)
      && (BodyProperties(op).Some? ==> var body := BodyProperties(op).value;
            && |r| == |op.parameters| + |body.0|
            && forall i :: 0 <= i < |body.0| ==> var t := r[|op.parameters| + i];
                 t.name == body.0[i].name && t.kind == InBody && (t.required <==> body.0[i].name in body.1))
  {
  }

  /** The loop of `generateParameters`. */
  method GenerateParameters(path: string, verb: string, op: Operation, pathParams: seq<string>) returns (parameters: seq<ToolParam>)
    ensures parameters == Parameters(path, verb, op, pathParams)
  {
    parameters := [];
    for i := 0 to |op.parameters|
      invariant parameters == ParamsFrom(path, verb, op.parameters[..i], pathParams)
    {
      assert op.parameters[..i + 1][..i] == op.parameters[..i];
      parameters := parameters + [ParamFor(path, verb, op.parameters[i], pathParams)];
    }
    assert op.parameters[..|op.parameters|] == op.parameters;
    match BodyProperties(op) {
      case None =>
      case Some(body) =>
        var props, required := body.0, body.1;
        var fromParams := parameters;
        for j := 0 to |props|
          invariant parameters == fromParams + PropertiesFrom(props[..j], required)
        {
          assert props[..j + 1][..j] == props[..j];
          parameters := parameters + [PropertyFor(props[j], required)];
        }
        assert props[..|props|] == props;
    }
  }

  /** The tool for the operation under key `verb` of `path`. */
  function OperationTool(path: string, verb: string, op: Operation): Tool {
    Tool(
      ToolName(path, verb, op.operationId),
      OrElse(op.summary, OrElse(op.description, DefaultDescription(verb, path))),
      Parameters(path, verb, op, BraceParams(path)),
      path,
      MethodLabel(verb),
      if op.operationId != [] then Some(op.operationId) else None)
  }

  /** Whether an entry of a path item is turned into a tool: not `parameters`, and an object that is not `null`. */
  predicate IsOperation(e: Entry) {
    e.key != "parameters" && e.value.Op?
  }

  /** The tools of one path item, in key order. */
  function ItemTools(path: string, item: seq<Entry>): seq<Tool> {
    if item == [] then []
    else
      var e := item[|item| - 1];
      ItemTools(path, item[..|item| - 1]) + (if IsOperation(e) then [OperationTool(path, e.key, e.value.op)] else [])
  }

  /** The tools of a `paths` object, path by path. */
  function PathsTools(paths: seq<PathEntry>): seq<Tool> {
    if paths == [] then []
    else PathsTools(paths[..|paths| - 1]) + ItemTools(paths[|paths| - 1].path, paths[|paths| - 1].item)
  }

  /** The number of entries that are operations. */
  function OperationCount(item: seq<Entry>): nat {
    if item == [] then 0
    else OperationCount(item[..|item| - 1]) + if IsOperation(item[|item| - 1]) then 1 else 0
  }

  /** `t` is a tool for `path` made from operation entry `e`: same path, upper-cased method, derived name. */
  predicate ToolFrom(t: Tool, path: string, e: Entry)
    requires e.value.Op?
  {
    t.path == path && t.httpMethod == Upper(e.key) && t.name == ToolName(path, e.key, e.value.op.operationId)
  }

  predicate ToolOf(t: Tool, path: string, item: seq<Entry>) {
    exists e :: e in item && IsOperation(e) && ToolFrom(t, path, e)
  }

  /** One tool per operation, each for its path, with the method upper-cased and the derived name. */
  lemma {:induction false} ItemToolsSound(path: string, item: seq<Entry>)
    ensures |ItemTools(path, item)| == OperationCount(item)
    ensures forall t :: t in ItemTools(path, item) ==> ToolOf(t, path, item)
    decreases |item|
  {
    if item != [] {
      var init := item[..|item| - 1];
      ItemToolsSound(path, init);
      forall t | t in ItemTools(path, init) ensures ToolOf(t, path, item) {
        var e :| e in init && IsOperation(e) && ToolFrom(t, path, e);
        assert e in item;
      }
    }
  }

  /** An operation of a path item does give a tool. */
  lemma {:induction false} ItemToolsComplete(path: string, item: seq<Entry>, k: nat)
    requires k < |item| && IsOperation(item[k])
    ensures OperationTool(path, item[k].key, item[k].value.op) in ItemTools(path, item)
    decreases |item|
  {
    if k < |item| - 1 {
      assert item[..|item| - 1][k] == item[k];
      ItemToolsComplete(path, item[..|item| - 1], k);
    }
  }

  lemma ItemToolsSnoc(path: string, item: seq<Entry>, j: nat)
    requires j < |item|
    ensures ItemTools(path, item[..j + 1]) == ItemTools(path, item[..j])
      + (if IsOperation(item[j]) then [OperationTool(path, item[j].key, item[j].value.op)] else [])
  {
    assert item[..j + 1][..j] == item[..j];
  }

  lemma PathsToolsSnoc(paths: seq<PathEntry>, i: nat)
    requires i < |paths|
    ensures PathsTools(paths[..i + 1]) == PathsTools(paths[..i]) + ItemTools(paths[i].path, paths[i].item)
  {
    assert paths[..i + 1][..i] == paths[..i];
  }

  /** The inner loop of `processPathsDefinition`: one tool per operation of a path item. */
  method ProcessPathItem(path: string, item: seq<Entry>, tools: seq<Tool>) returns (tools': seq<Tool>)
    ensures tools' == tools + ItemTools(path, item)
  {
    var pathParams := BraceParams(path);
    tools' := tools;
    for j := 0 to |item|
      invariant tools' == tools + ItemTools(path, item[..j])
    {
      var e := item[j];
      ItemToolsSnoc(path, item, j);
      if e.key != "parameters" && e.value.Op? {
        var op := e.value.op;
        var parameters := GenerateParameters(path, e.key, op, pathParams);
        var description := OrElse(op.summary, OrElse(op.description, DefaultDescription(e.key, path)));
        var operationId := if op.operationId != [] then Some(op.operationId) else None;
        var tool := Tool(ToolName(path, e.key, op.operationId), description, parameters, path, MethodLabel(e.key), operationId);
        assert tool == OperationTool(path, e.key, op);
        AppendAssoc(tools, ItemTools(path, item[..j]), [tool]);
        tools' := tools' + [tool];
      } else {
        assert ItemTools(path, item[..j]) + [] == ItemTools(path, item[..j]);
      }
    }
    assert item[..|item|] == item;
  }

  /** `processPathsDefinition`: the tools of every path, appended to `tools`. */
  method ProcessPathsDefinition(paths: seq<PathEntry>, tools: seq<Tool>) returns (tools': seq<Tool>)
    ensures tools' == tools + PathsTools(paths)
  {
    tools' := tools;
    for i := 0 to |paths|
      invariant tools' == tools + PathsTools(paths[..i])
    {
      PathsToolsSnoc(paths, i);
      AppendAssoc(tools, PathsTools(paths[..i]), ItemTools(paths[i].path, paths[i].item));
      tools' := ProcessPathItem(paths[i].path, paths[i].item, tools');
    }
    assert paths[..|paths|] == paths;
  }
}
