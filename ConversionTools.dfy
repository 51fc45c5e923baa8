/**
 * `src/conversion/tool-generator.js`: the same tool list as
 * `src/tools/api-tools-generator.ts`, with two differences in what it
 * builds. A path under `/pos/…` or `/common/…` has that first segment as
 * its category and the second as its resource, and every derived name is
 * prefixed with the category. A body schema without `properties` becomes a
 * single `body` parameter.
 */
module ConversionTools {
  import opened Text
  import opened ToolNaming
  import A = ApiTools

  /** The first segments that are namespaces rather than resources. */
  predicate IsNamespace(seg: string) {
    seg == "pos" || seg == "common"
  }

  /** A namespace has no `/` and no `{`. */
  lemma NamespaceChars(ns: string)
    requires IsNamespace(ns)
    ensures ns != [] && '/' !in ns && '{' !in ns
  {
    if ns == "pos" {
      assert ns == ['p', 'o', 's'];
    } else {
      assert ns == ['c', 'o', 'm', 'm', 'o', 'n'];
    }
  }

  /** `extractCategoryFromPath`: a leading `pos` or `common`, otherwise `api`. */
  function Category(path: string): string {
    var segs := Segments(path);
    if |segs| > 0 && IsNamespace(segs[0]) then segs[0] else "api"
  }

  /** The category is the namespace a path starts with, or `api`. */
  lemma CategoryCases(path: string)
    ensures var c := Category(path);
      && (c == "pos" || c == "common" || c == "api")
      && (Segments(path) != [] && IsNamespace(Segments(path)[0]) ==> c == Segments(path)[0])
      && (Segments(path) == [] || !IsNamespace(Segments(path)[0]) ==> c == "api")
  {
  }

  /** `extractResourceFromPath`: the segment after a namespace, otherwise as in the TypeScript generator. */
  function Resource(path: string): string {
    var segs := Segments(path);
    if |segs| > 1 && IsNamespace(segs[0]) then segs[1] else A.ExtractResource(path)
  }

  /** The resource is never empty: the segment after a namespace, otherwise the first segment or `resource`. */
  lemma ResourceCases(path: string)
    ensures var r := Resource(path);
      && r != []
      && (|Segments(path)| > 1 && IsNamespace(Segments(path)[0]) ==> r == Segments(path)[1])
      && (!(|Segments(path)| > 1 && IsNamespace(Segments(path)[0])) ==> r == A.ExtractResource(path))
  {
  }

  /** `generateToolName`: an `operationId` as it is, otherwise `category.` and the derived name. */
  function ToolName(path: string, verb: string, category: string, operationId: string): string
  {
    if operationId != [] then operationId else category + "." + A.DerivedName(Resource(path), path, verb)
  }

  /** Away from a namespace, the name is the TypeScript generator's name behind `category.`. */
  lemma ToolNameOutsideNamespace(path: string, verb: string, category: string)
    requires !(|Segments(path)| > 1 && IsNamespace(Segments(path)[0]))
    ensures ToolName(path, verb, category, "") == category + "." + A.ToolName(path, verb, "")
  {
  }

  /** A given `operationId` wins here too, without a category. */
  lemma ToolNameKeepsOperationId(path: string, verb: string, category: string, operationId: string)
    requires operationId != []
    ensures ToolName(path, verb, category, operationId) == operationId
  {
  }

  /** The segments of `/ns/r…`. */
  lemma NamespacedSegments(ns: string, r: string, t: string)
    requires ns != [] && '/' !in ns && r != [] && '/' !in r && (t == [] || t[0] == '/')
    ensures Segments("/" + ns + "/" + r + t) == [ns, r] + Segments(t)
  {
    var u := "/" + r + t;
    assert "/" + ns + "/" + r + t == "/" + ns + u;
    SegmentsOf(r, t);
    SegmentsOf(ns, u);
  }

  /** Under `/ns/r…` with `ns` a namespace, both the category and the resource come from the path. */
  lemma NamespacedName(ns: string, r: string, t: string, verb: string)
    requires IsNamespace(ns) && r != [] && '/' !in r && (t == [] || t[0] == '/')
    ensures var path := "/" + ns + "/" + r + t;
      && Category(path) == ns && Resource(path) == r
      && ToolName(path, verb, Category(path), "") == ns + "." + A.DerivedName(r, path, verb)
  {
    var path := "/" + ns + "/" + r + t;
    NamespaceChars(ns);
    NamespacedSegments(ns, r, t);
    var segs := Segments(path);
    assert |segs| > 1 && segs[0] == ns && segs[1] == r;
    CategoryOfNamespaced(path);
    ResourceOfNamespaced(path);
  }

  lemma CategoryOfNamespaced(path: string)
    requires Segments(path) != [] && IsNamespace(Segments(path)[0])
    ensures Category(path) == Segments(path)[0]
  {
  }

  lemma ResourceOfNamespaced(path: string)
    requires |Segments(path)| > 1 && IsNamespace(Segments(path)[0])
    ensures Resource(path) == Segments(path)[1]
  {
  }

  /** `GET /pos/things` is `pos.listThings`: the namespace is the category, not the resource. */
  lemma NamespacedListName(ns: string, r: string, verb: string)
    requires IsNamespace(ns) && r != [] && '/' !in r && '{' !in r && Lower(verb) == "get"
    ensures var path := "/" + ns + "/" + r;
      Category(path) == ns && ToolName(path, verb, Category(path), "") == ns + "." + "list" + Capitalize(r)
  {
    var path := "/" + ns + "/" + r;
    assert path + [] == path;
    NamespacedName(ns, r, [], verb);
    NamespaceChars(ns);
    A.DerivedList(r, path, verb);
  }

  /** `GET /pos/things/{id}` is `pos.getThingById`. */
  lemma NamespacedGetByIdName(ns: string, r: string, x: string, verb: string)
    requires IsNamespace(ns) && r != [] && '/' !in r && Lower(verb) == "get"
    ensures var path := "/" + ns + "/" + r + "/{" + x + "}";
      Category(path) == ns && ToolName(path, verb, Category(path), "") == ns + "." + "get" + Capitalize(Singularize(r)) + "ById"
  {
    var t := "/{" + x + "}";
    var path := "/" + ns + "/" + r + "/{" + x + "}";
    assert path == "/" + ns + "/" + r + t;
    NamespacedName(ns, r, t, verb);
    assert t[1] == '{';
    assert '{' in path;
    A.DerivedGetById(r, path, verb);
    var a, c := ns + ".", Capitalize(Singularize(r));
    AppendAssoc(a, "get" + c, "ById");
    AppendAssoc(a, "get", c);
  }

  /** The parameter that stands for a whole body without properties. */
  function WholeBody(rb: A.RequestBody): A.ToolParam {
    A.ToolParam("body", "Request body", rb.required, InBody)
  }

  /** The body parameters: one per property, or the whole body when the schema has no `properties`. */
  function BodyParams(op: A.Operation): seq<A.ToolParam> {
    match op.requestBody
    case None => []
    case Some(rb) =>
      match A.BodyMedia(rb)
      case None => []
      case Some(media) =>
        match media.schema
        case None => []
        case Some(schema) =>
          match schema.properties
          case Some(props) => A.PropertiesFrom(props, schema.required)
          case None => [WholeBody(rb)]
  }

  /** A body schema without `properties`, where the two generators differ. */
  predicate PropertylessBody(op: A.Operation) {
    op.requestBody.Some? && A.BodyMedia(op.requestBody.value).Some?
    && A.BodyMedia(op.requestBody.value).value.schema.Some?
    && A.BodyMedia(op.requestBody.value).value.schema.value.properties.None?
  }

  /** `generateParameters`. */
  function Parameters(path: string, verb: string, op: A.Operation, pathParams: seq<string>): seq<A.ToolParam> {
    A.ParamsFrom(path, verb, op.parameters, pathParams) + BodyParams(op)
  }

  /** The body parameters agree with the TypeScript generator's, plus the whole-body parameter where the schema has no properties. */
  lemma BodyParamsVersusTypeScript(op: A.Operation)
    ensures !PropertylessBody(op) ==> BodyParams(op) == A.BodyParams(op)
    ensures PropertylessBody(op) ==> A.BodyParams(op) == [] && BodyParams(op) == [WholeBody(op.requestBody.value)]
  {
  }

  /** So the parameters are the TypeScript generator's, with the whole-body parameter added at the end when the schema has no properties. */
  lemma ParametersVersusTypeScript(path: string, verb: string, op: A.Operation, pathParams: seq<string>)
    ensures !PropertylessBody(op) ==> Parameters(path, verb, op, pathParams) == A.Parameters(path, verb, op, pathParams)
    ensures PropertylessBody(op) ==>
      Parameters(path, verb, op, pathParams) == A.Parameters(path, verb, op, pathParams) + [WholeBody(op.requestBody.value)]
  {
    BodyParamsVersusTypeScript(op);
    var ps := A.ParamsFrom(path, verb, op.parameters, pathParams);
    if PropertylessBody(op) {
      assert ps + [] == ps;
    }
  }

  /** The loop of `generateParameters`, with the whole-body branch. */
  method GenerateParameters(path: string, verb: string, op: A.Operation, pathParams: seq<string>) returns (parameters: seq<A.ToolParam>)
    ensures parameters == Parameters(path, verb, op, pathParams)
  {
    parameters := [];
    for i := 0 to |op.parameters|
      invariant parameters == A.ParamsFrom(path, verb, op.parameters[..i], pathParams)
    {
      assert op.parameters[..i + 1][..i] == op.parameters[..i];
      parameters := parameters + [A.ParamFor(path, verb, op.parameters[i], pathParams)];
    }
    assert op.parameters[..|op.parameters|] == op.parameters;
    if op.requestBody.Some? && A.BodyMedia(op.requestBody.value).Some? {
      var rb := op.requestBody.value;
      var media := A.BodyMedia(rb).value;
      if media.schema.Some? {
        var schema := media.schema.value;
        if schema.properties.Some? {
          var props := schema.properties.value;
          var fromParams := parameters;
          for j := 0 to |props|
            invariant parameters == fromParams + A.PropertiesFrom(props[..j], schema.required)
          {
            assert props[..j + 1][..j] == props[..j];
            parameters := parameters + [A.PropertyFor(props[j], schema.required)];
          }
          assert props[..|props|] == props;
        } else {
          parameters := parameters + [A.ToolParam("body", "Request body", rb.required, InBody)];
        }
      }
    }
  }

  /** A tool as this generator writes it: with its category and version `1.0`. */
  datatype Tool = Tool(
    name: string,
    description: string,
    parameters: seq<A.ToolParam>,
    path: string,
    httpMethod: string,
    operationId: Option<string>,
    category: string,
    version: string)

  /** `extractCategoryFromPath(path) || defaultCategory`. */
  function PathCategory(path: string, defaultCategory: string): (c: string)
    ensures c == Category(path)
  {
    CategoryCases(path);
    OrElse(Category(path), defaultCategory)
  }

  function OperationTool(path: string, verb: string, op: A.Operation, category: string): Tool {
    Tool(
      ToolName(path, verb, category, op.operationId),
      OrElse(op.summary, OrElse(op.description, DefaultDescription(verb, path))),
      Parameters(path, verb, op, BraceParams(path)),
      path,
      MethodLabel(verb),
      if op.operationId != [] then Some(op.operationId) else None,
      category,
      "1.0")
  }

  function ItemTools(path: string, item: seq<A.Entry>, category: string): seq<Tool> {
    if item == [] then []
    else
      var e := item[|item| - 1];
      ItemTools(path, item[..|item| - 1], category)
      + (if A.IsOperation(e) then [OperationTool(path, e.key, e.value.op, category)] else [])
  }

  function PathsTools(paths: seq<A.PathEntry>, defaultCategory: string): seq<Tool> {
    if paths == [] then []
    else
      var p := paths[|paths| - 1];
      PathsTools(paths[..|paths| - 1], defaultCategory) + ItemTools(p.path, p.item, PathCategory(p.path, defaultCategory))
  }

  /** The tool generated from an operation of the TypeScript generator's list, with the category added. */
  predicate Mirrors(t: Tool, u: A.Tool, category: string) {
    && t.description == u.description && t.path == u.path && t.httpMethod == u.httpMethod
    && t.operationId == u.operationId && t.category == category && t.version == "1.0"
  }

  /** Tool for tool, the same list as the TypeScript generator's apart from names, parameters, category and version. */
  lemma {:induction false} ItemToolsMirror(path: string, item: seq<A.Entry>, category: string)
    ensures |ItemTools(path, item, category)| == |A.ItemTools(path, item)|
    ensures forall k :: 0 <= k < |ItemTools(path, item, category)| ==>
      Mirrors(ItemTools(path, item, category)[k], A.ItemTools(path, item)[k], category)
    decreases |item|
  {
    if item != [] {
      ItemToolsMirror(path, item[..|item| - 1], category);
    }
  }

  /** Every tool carries its path's category and version `1.0`, and is named `category.…` unless it has an `operationId`. */
  lemma {:induction false} PathsToolsCategory(paths: seq<A.PathEntry>, defaultCategory: string)
    ensures forall t :: t in PathsTools(paths, defaultCategory) ==>
      (t.category == "pos" || t.category == "common" || t.category == "api") && t.version == "1.0"
      && (t.operationId.None? ==> StartsWith(t.name, t.category + "."))
    decreases |paths|
  {
    if paths != [] {
      PathsToolsCategory(paths[..|paths| - 1], defaultCategory);
      var p := paths[|paths| - 1];
      ItemToolsCategory(p.path, p.item, PathCategory(p.path, defaultCategory));
    }
  }

  lemma {:induction false} ItemToolsCategory(path: string, item: seq<A.Entry>, category: string)
    requires category == Category(path)
    ensures forall t :: t in ItemTools(path, item, category) ==>
      (t.category == "pos" || t.category == "common" || t.category == "api") && t.version == "1.0"
      && (t.operationId.None? ==> StartsWith(t.name, t.category + "."))
    decreases |item|
  {
    if item != [] {
      ItemToolsCategory(path, item[..|item| - 1], category);
      var e := item[|item| - 1];
      if A.IsOperation(e) {
        var t := OperationTool(path, e.key, e.value.op, category);
        if t.operationId.None? {
          assert t.name[..|category + "."|] == category + ".";
        }
      }
    }
  }

  lemma ItemToolsSnoc(path: string, item: seq<A.Entry>, j: nat, category: string)
    requires j < |item|
    ensures ItemTools(path, item[..j + 1], category) == ItemTools(path, item[..j], category)
      + (if A.IsOperation(item[j]) then [OperationTool(path, item[j].key, item[j].value.op, category)] else [])
  {
    assert item[..j + 1][..j] == item[..j];
  }

  /** The inner loop of `processPathsDefinition`, with the path's category. */
  method ProcessPathItem(path: string, item: seq<A.Entry>, category: string, tools: seq<Tool>) returns (tools': seq<Tool>)
    ensures tools' == tools + ItemTools(path, item, category)
  {
    var pathParams := BraceParams(path);
    tools' := tools;
    for j := 0 to |item|
      invariant tools' == tools + ItemTools(path, item[..j], category)
    {
      var e := item[j];
      ItemToolsSnoc(path, item, j, category);
      if e.key != "parameters" && e.value.Op? {
        var op := e.value.op;
        var parameters := GenerateParameters(path, e.key, op, pathParams);
        var description := OrElse(op.summary, OrElse(op.description, DefaultDescription(e.key, path)));
        var operationId := if op.operationId != [] then Some(op.operationId) else None;
        var tool := Tool(ToolName(path, e.key, category, op.operationId), description, parameters, path,
          MethodLabel(e.key), operationId, category, "1.0");
        assert tool == OperationTool(path, e.key, op, category);
        AppendAssoc(tools, ItemTools(path, item[..j], category), [tool]);
        tools' := tools' + [tool];
      } else {
        assert ItemTools(path, item[..j], category) + [] == ItemTools(path, item[..j], category);
      }
    }
    assert item[..|item|] == item;
  }

  lemma PathsToolsSnoc(paths: seq<A.PathEntry>, i: nat, defaultCategory: string)
    requires i < |paths|
    ensures PathsTools(paths[..i + 1], defaultCategory)
      == PathsTools(paths[..i], defaultCategory) + ItemTools(paths[i].path, paths[i].item, PathCategory(paths[i].path, defaultCategory))
  {
    assert paths[..i + 1][..i] == paths[..i];
  }

  /** `processPathsDefinition`: the tools of every path under its category, appended to `tools`. */
  method ProcessPathsDefinition(paths: seq<A.PathEntry>, tools: seq<Tool>, defaultCategory: string) returns (tools': seq<Tool>)
    ensures tools' == tools + PathsTools(paths, defaultCategory)
  {
    tools' := tools;
    for i := 0 to |paths|
      invariant tools' == tools + PathsTools(paths[..i], defaultCategory)
    {
      var p := paths[i];
      PathsToolsSnoc(paths, i, defaultCategory);
      var category := PathCategory(p.path, defaultCategory);
      AppendAssoc(tools, PathsTools(paths[..i], defaultCategory), ItemTools(p.path, p.item, category));
      tools' := ProcessPathItem(p.path, p.item, category, tools');
    }
    assert paths[..|paths|] == paths;
  }
}
