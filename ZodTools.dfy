/**
 * `src/tools/generators/zod-api-tool-generator.ts`: tools built from the
 * `EndpointByMethod` table of the generated zod schema. The name is
 * `category.actionResource`, where the resource is the LAST segment (with
 * its first `{x}` unwrapped) and there is no singular and no `ById`; every
 * tool asks for a `sessionId` first. A path without segments makes the
 * name computation throw, and that tool is skipped.
 */
module ZodTools {
  import opened Text
  import opened ToolNaming
  import A = ApiTools

  /** A property of a zod object shape; `optional` is what `isOptional` reports. */
  datatype ZodProp = ZodProp(name: string, optional: bool)

  /** `endpoint.parameters`: the shapes of its query, path and body objects (an absent one is empty). */
  datatype Endpoint = Endpoint(query: seq<ZodProp>, pathParams: seq<ZodProp>, body: seq<ZodProp>)

  /** An endpoint under its path. */
  datatype PathEndpoint = PathEndpoint(path: string, endpoint: Endpoint)

  /** The endpoints of one HTTP method, keyed by path in key order. */
  datatype MethodGroup = MethodGroup(verb: string, endpoints: seq<PathEndpoint>)

  /**
   * `s.replace(/\{([^}]+)\}/, '$1')`: the first `{…}` with something inside
   * loses its braces. From a `{`, the inside runs to the next `}`.
   */
  function UnwrapFirst(s: string): string
    decreases |s|
  {
    if s == [] then s
    else if s[0] != '{' then [s[0]] + UnwrapFirst(s[1..])
    else
      match IndexOf(s[1..], '}')
      case None => s
      case Some(j) => if j == 0 then [s[0]] + UnwrapFirst(s[1..]) else s[1..][..j] + s[1..][j + 1..]
  }

  /**
   * `u` is `s` with the braces around its first path parameter `p` removed:
   * the text before `{p}`, read together with it, holds no other parameter.
   */
  ghost predicate UnwrapsTo(s: string, p: string, u: string) {
    p != [] && '}' !in p && exists a, b :: UnwrapsAt(s, p, u, a, b)
  }

  /** `UnwrapsTo` with `a` the text before the first parameter and `b` the text after it. */
  ghost predicate UnwrapsAt(s: string, p: string, u: string, a: string, b: string) {
    s == a + "{" + p + "}" + b && u == a + p + b && BraceParams(a + "{" + p + "}") == [p]
  }

  /** The witnesses of `UnwrapsTo`. */
  lemma UnwrapsToBy(s: string, p: string, u: string, a: string, b: string)
    requires p != [] && '}' !in p
    requires s == a + "{" + p + "}" + b && u == a + p + b && BraceParams(a + "{" + p + "}") == [p]
    ensures UnwrapsTo(s, p, u)
  {
    assert UnwrapsAt(s, p, u, a, b);
  }

  /** The first character of a text that opens no parameter leaves its parameters to the rest. */
  lemma BraceParamsSkip(c: char, y: string)
    requires c != '{' || (y != [] && y[0] == '}')
    ensures BraceParams([c] + y) == BraceParams(y)
  {
    assert ([c] + y)[1..] == y;
    if c == '{' {
      assert IndexOf(y, '}') == Some(0);
    }
  }

  /** The pieces of `t` and `u` with one more character in front. */
  lemma ConsPieces(c: char, t: string, p: string, u: string, a: string, b: string)
    requires t == a + "{" + p + "}" + b && u == a + p + b
    ensures [c] + t == ([c] + a) + "{" + p + "}" + b && [c] + u == ([c] + a) + p + b
    ensures [c] + (a + "{" + p + "}") == ([c] + a) + "{" + p + "}" && t[0] == (a + "{" + p + "}")[0]
  {
  }

  /** A character that opens no parameter can go in front of the text before the first one. */
  lemma UnwrapsToCons(c: char, t: string, p: string, u: string)
    requires UnwrapsTo(t, p, u)
    requires c != '{' || (t != [] && t[0] == '}')
    ensures UnwrapsTo([c] + t, p, [c] + u)
  {
    var a, b :| UnwrapsAt(t, p, u, a, b);
    ConsPieces(c, t, p, u, a, b);
    BraceParamsSkip(c, a + "{" + p + "}");
    UnwrapsToBy([c] + t, p, [c] + u, [c] + a, b);
  }

  /** The braces of a parameter that stands first. */
  lemma BraceParamsWhole(p: string)
    requires p != [] && '}' !in p
    ensures BraceParams("{" + p + "}") == [p]
  {
    var w := "{" + p + "}";
    assert w[1..] == p + "}";
    IndexOfAfter(p, '}');
    assert w[1..][..|p|] == p && w[1..][|p| + 1..] == [];
  }

  lemma UnwrapsToHere(p: string, b: string)
    requires p != [] && '}' !in p
    ensures UnwrapsTo("{" + p + "}" + b, p, p + b)
  {
    BraceParamsWhole(p);
    assert [] + "{" + p + "}" == "{" + p + "}";
    assert "{" + p + "}" + b == [] + "{" + p + "}" + b;
    assert p + b == [] + p + b;
    UnwrapsToBy("{" + p + "}" + b, p, p + b, [], b);
  }

  /** Unwrapping removes exactly the braces of the first path parameter, and nothing happens without one. */
  lemma {:induction false} UnwrapFirstSpec(s: string)
    ensures BraceParams(s) == [] ==> UnwrapFirst(s) == s
    ensures BraceParams(s) != [] ==> UnwrapsTo(s, BraceParams(s)[0], UnwrapFirst(s))
    decreases |s|
  {
    if s != [] {
      var t := s[1..];
      if s[0] != '{' || IndexOf(t, '}') == Some(0) {
        UnwrapFirstSpec(t);
        UnwrapFirstSkips(s);
        if BraceParams(s) != [] {
          UnwrapsToCons(s[0], t, BraceParams(t)[0], UnwrapFirst(t));
        }
        assert s == [s[0]] + t;
      } else if IndexOf(t, '}').Some? {
        UnwrapFirstHere(s, IndexOf(t, '}').value);
      }
    }
  }

  /** A text that ends in a parameter in braces has at least one parameter. */
  lemma {:induction false} BraceParamsOfTail(x: string, p: string)
    requires p != [] && '}' !in p
    ensures BraceParams(x + "{" + p + "}") != []
    decreases |x|
  {
    var y := x + "{" + p + "}";
    if x == [] {
      BraceParamsWhole(p);
      assert y == "{" + p + "}";
    } else {
      assert y[1..] == x[1..] + "{" + p + "}";
      BraceParamsOfTail(x[1..], p);
      if y[0] == '{' {
        assert y[|y| - 1] == '}';
      }
    }
  }

  /** `IndexOf` of a character that the first part holds ignores the rest. */
  lemma IndexOfInPrefix(y: string, b: string, c: char)
    requires c in y
    ensures IndexOf(y + b, c) == IndexOf(y, c)
  {
    var k := IndexOf(y, c).value;
    assert (y + b)[..k] == y[..k];
    IndexOfIs(y + b, c, k);
  }

  /** In `a + "{p}"` a `}` at position `|p|` lies inside `a`: the braced part has its `}` further on. */
  lemma CloseInFront(a: string, p: string, j: nat)
    requires '}' !in p
    requires j == |p| && j < |a + "{" + p + "}"| && (a + "{" + p + "}")[j] == '}'
    ensures j < |a|
  {
    var y := a + "{" + p + "}";
    forall i | |a| <= i <= |a| + |p|
      ensures y[i] != '}'
    {
      if i > |a| {
        assert y[i] == p[i - |a| - 1];
      }
    }
  }

  /** A `{` whose next `}` is further on opens a parameter. */
  lemma BraceParamsOpen(y: string, j: nat)
    requires IndexOf(y, '}') == Some(j) && j != 0
    ensures BraceParams("{" + y) == [y[..j]] + BraceParams(y[j + 1..])
  {
    assert ("{" + y)[1..] == y;
  }

  /** When the text before a `}` of `a + "{p}"` is `p`, that `}` lies in `a`, and `{p}` still follows it. */
  lemma ParamsAfterClose(a: string, p: string, y: string, j: nat)
    requires p != [] && '}' !in p && y == a + "{" + p + "}"
    requires j < |y| && y[j] == '}' && y[..j] == p
    ensures BraceParams(y[j + 1..]) != []
  {
    assert |y[..j]| == |p|;
    CloseInFront(a, p, j);
    assert y[j + 1..] == a[j + 1..] + "{" + p + "}";
    BraceParamsOfTail(a[j + 1..], p);
  }

  /** A `{` in front of `a + "{p}"` that `}` closes before the end opens a parameter other than `p` alone. */
  lemma OpenBeforeFirst(a: string, p: string, j: nat)
    requires p != [] && '}' !in p
    requires IndexOf(a + "{" + p + "}", '}') == Some(j) && j != 0
    ensures BraceParams("{" + (a + "{" + p + "}")) != [p]
  {
    var y := a + "{" + p + "}";
    BraceParamsOpen(y, j);
    var rest := BraceParams(y[j + 1..]);
    var first := y[..j];
    assert ([first] + rest)[0] == first && |[first] + rest| == 1 + |rest|;
    if first == p {
      ParamsAfterClose(a, p, y, j);
    }
  }

  /** A `{` in front of the text before the first parameter is closed at once: it opens nothing. */
  lemma FirstOpenCloses(a: string, p: string, y: string)
    requires p != [] && '}' !in p && y == a + "{" + p + "}"
    requires BraceParams("{" + y) == [p]
    ensures IndexOf(y, '}') == Some(0)
  {
    assert y[|y| - 1] == '}';
    var j := IndexOf(y, '}').value;
    if j != 0 {
      OpenBeforeFirst(a, p, j);
      assert false;
    }
  }


  /** A text that opens with a parameter in braces loses those braces. */
  lemma UnwrapAtStart(p: string, b: string)
    requires p != [] && '}' !in p
    ensures UnwrapFirst("{" + p + "}" + b) == p + b
  {
    var s := "{" + p + "}" + b;
    var t := s[1..];
    assert t == (p + "}") + b;
    IndexOfAfter(p, '}');
    IndexOfInPrefix(p + "}", b, '}');
    assert t[..|p|] == p && t[|p| + 1..] == b;
  }

  /** The pieces of `s` and `u` once their common first character is taken off. */
  lemma StepPieces(s: string, p: string, u: string, a: string, b: string)
    requires s == a + "{" + p + "}" + b && u == a + p + b && a != []
    ensures s[1..] == (a[1..] + "{" + p + "}") + b && u[1..] == a[1..] + p + b && u[0] == s[0]
    ensures a + "{" + p + "}" == [s[0]] + (a[1..] + "{" + p + "}")
  {
  }

  /** Before the first parameter, unwrapping keeps the first character and goes on with the rest. */
  lemma UnwrapsToStep(s: string, p: string, u: string, a: string, b: string)
    requires p != [] && '}' !in p && UnwrapsAt(s, p, u, a, b) && a != []
    ensures s != [] && u != [] && u[0] == s[0]
    ensures UnwrapsTo(s[1..], p, u[1..]) && UnwrapFirst(s) == [s[0]] + UnwrapFirst(s[1..])
  {
    var a' := a[1..];
    var y' := a' + "{" + p + "}";
    StepPieces(s, p, u, a, b);
    if s[0] == '{' {
      FirstOpenCloses(a', p, y');
      IndexOfInPrefix(y', b, '}');
    }
    BraceParamsSkip(s[0], y');
    UnwrapsToBy(s[1..], p, u[1..], a', b);
    UnwrapFirstSkips(s);
  }


  /** Only one text is `s` with its first parameter unwrapped: the one `UnwrapFirst` computes. */
  lemma {:induction false} UnwrapsToDetermined(s: string, p: string, u: string)
    requires UnwrapsTo(s, p, u)
    ensures u == UnwrapFirst(s)
    decreases |s|
  {
    var a, b :| UnwrapsAt(s, p, u, a, b);
    if a == [] {
      assert s == "{" + p + "}" + b && u == p + b;
      UnwrapAtStart(p, b);
    } else {
      UnwrapsToStep(s, p, u, a, b);
      UnwrapsToDetermined(s[1..], p, u[1..]);
      assert u == [u[0]] + u[1..];
    }
  }


  /** A first character that opens no parameter is kept and the scan goes on after it. */
  lemma UnwrapFirstSkips(s: string)
    requires s != [] && (s[0] != '{' || IndexOf(s[1..], '}') == Some(0))
    ensures BraceParams(s) == BraceParams(s[1..]) && UnwrapFirst(s) == [s[0]] + UnwrapFirst(s[1..])
  {
  }

  /** A `{` closed further on is the first parameter, and its braces go. */
  lemma UnwrapFirstHere(s: string, j: nat)
    requires s != [] && s[0] == '{' && IndexOf(s[1..], '}') == Some(j) && j > 0
    ensures BraceParams(s) != [] && UnwrapsTo(s, BraceParams(s)[0], UnwrapFirst(s))
  {
    var t := s[1..];
    var p := t[..j];
    var b := t[j + 1..];
    assert BraceParams(s)[0] == p;
    assert UnwrapFirst(s) == p + b;
    Rebuild(s, j);
    UnwrapsToHere(p, b);
  }

  /** A sequence is its head, the next `j` elements, the one after them, and the rest. */
  lemma Rebuild<T>(s: seq<T>, j: nat)
    requires j + 1 < |s|
    ensures s == [s[0]] + s[1..][..j] + [s[1..][j]] + s[1..][j + 1..]
  {
    var t := s[1..];
    assert t == t[..j] + [t[j]] + t[j + 1..];
    assert s == [s[0]] + t;
  }

  /** `generateToolName`; `None` where `segments[segments.length - 1].replace` throws. */
  function ToolName(verb: string, path: string): (r: Option<string>)
    ensures r.None? <==> Segments(path) == []
  {
    var segments := Segments(path);
    if segments == [] then None
    else
      var resource := OrElse(UnwrapFirst(segments[|segments| - 1]), "resource");
      var action := Action(verb, '{' in path);
      var category := OrElse(segments[0], "api");
      Some(category + "." + action + Capitalize(resource))
  }

  /** The name is the first segment, the action and the capitalised last segment once unwrapped. */
  lemma ToolNameParts(verb: string, path: string)
    requires Segments(path) != []
    ensures var segs := Segments(path);
      ToolName(verb, path) == Some(segs[0] + "." + Action(verb, '{' in path) + Capitalize(UnwrapFirst(segs[|segs| - 1])))
  {
    var segs := Segments(path);
    UnwrapNonEmpty(segs[|segs| - 1]);
  }

  /** Unwrapping leaves something of a non-empty segment. */
  lemma UnwrapNonEmpty(s: string)
    requires s != []
    ensures UnwrapFirst(s) != []
  {
    UnwrapFirstSpec(s);
    if BraceParams(s) != [] {
      BraceParamsInPath(s);
    }
  }

  /** The segments of `/c/r/w`. */
  lemma ThreeSegments(c: string, r: string, w: string)
    requires c != [] && '/' !in c && r != [] && '/' !in r && w != [] && '/' !in w
    ensures Segments("/" + c + "/" + r + "/" + w) == [c, r, w]
  {
    SegmentsOf(w, []);
    assert "/" + w + [] == "/" + w;
    NoSegments();
    SegmentsOf(r, "/" + w);
    assert "/" + r + ("/" + w) == "/" + r + "/" + w;
    SegmentsOf(c, "/" + r + "/" + w);
    assert "/" + c + ("/" + r + "/" + w) == "/" + c + "/" + r + "/" + w;
  }

  /** A segment that is one parameter in braces unwraps to the parameter. */
  lemma UnwrapWhole(x: string)
    requires x != [] && '}' !in x
    ensures UnwrapFirst("{" + x + "}") == x
  {
    var w := "{" + x + "}";
    assert w[1..] == x + "}";
    IndexOfAfter(x, '}');
    assert w[1..][..|x|] == x && w[1..][|x| + 1..] == [];
  }

  /** `GET /pos/things/{id}` is `pos.getId`: the resource is the last segment, unwrapped. */
  lemma GetByLastSegment(c: string, r: string, x: string, verb: string)
    requires c != [] && '/' !in c && r != [] && '/' !in r && x != [] && '/' !in x && '}' !in x && Lower(verb) == "get"
    ensures ToolName(verb, "/" + c + "/" + r + "/{" + x + "}") == Some(c + "." + "get" + Capitalize(x))
  {
    var w := "{" + x + "}";
    var path := "/" + c + "/" + r + "/" + w;
    assert "/" + c + "/" + r + "/{" + x + "}" == path;
    assert '/' !in w;
    ThreeSegments(c, r, w);
    assert path[|c| + |r| + 3] == '{';
    UnwrapWhole(x);
    assert Action(verb, true) == "get";
  }

  /** `IndexOf` finds a character right after a prefix that does not hold it. */
  lemma IndexOfAfter(x: string, c: char)
    requires c !in x
    ensures IndexOf(x + [c], c) == Some(|x|)
    decreases |x|
  {
    if x != [] {
      assert (x + [c])[1..] == x[1..] + [c];
      IndexOfAfter(x[1..], c);
    }
  }

  /** `sessionId`, always first and required. */
  const SessionIdDescription := "認証済みのセッションID"

  function SessionIdParam(): A.ToolParam {
    A.ToolParam("sessionId", SessionIdDescription, true, InQuery)
  }

  function ZodParam(prop: ZodProp, kind: ParamKind): A.ToolParam {
    A.ToolParam(prop.name, prop.name + " パラメータ", !prop.optional, kind)
  }

  /** `extractParametersFromZodObject`: one parameter per property of the shape, of the given kind. */
  function ZodParams(props: seq<ZodProp>, kind: ParamKind): (r: seq<A.ToolParam>)
    ensures |r| == |props|
    ensures forall i :: 0 <= i < |props| ==>
      r[i].name == props[i].name && r[i].kind == kind && (r[i].required <==> !props[i].optional)
  {
    if props == [] then [] else ZodParams(props[..|props| - 1], kind) + [ZodParam(props[|props| - 1], kind)]
  }

  /** The loop of `extractParametersFromZodObject`. */
  method ExtractParameters(props: seq<ZodProp>, kind: ParamKind) returns (result: seq<A.ToolParam>)
    ensures result == ZodParams(props, kind)
  {
    result := [];
    for i := 0 to |props|
      invariant result == ZodParams(props[..i], kind)
    {
      assert props[..i + 1][..i] == props[..i];
      result := result + [ZodParam(props[i], kind)];
    }
    assert props[..|props|] == props;
  }

  /** `convertZodSchemaToParameters`: `sessionId`, then the query, path and body parameters. */
  function Parameters(ep: Endpoint): seq<A.ToolParam> {
    [SessionIdParam()] + ZodParams(ep.query, InQuery) + ZodParams(ep.pathParams, InPath) + ZodParams(ep.body, InBody)
  }

  /** The parameters in their three groups, after the required `sessionId`. */
  lemma ParametersLayout(ep: Endpoint)
    ensures var r := Parameters(ep);
      var q, p := |ep.query|, |ep.pathParams|;
      && |r| == 1 + q + p + |ep.body|
      && r[0].name == "sessionId" && r[0].required && r[0].kind == InQuery
      && (forall i :: 0 <= i < q ==> r[1 + i].name == ep.query[i].name && r[1 + i].kind == InQuery)
      && (forall i :: 0 <= i < p ==> r[1 + q + i].name == ep.pathParams[i].name && r[1 + q + i].kind == InPath)
      && (forall i :: 0 <= i < |ep.body| ==> r[1 + q + p + i].name == ep.body[i].name && r[1 + q + p + i].kind == InBody)
  {
    var r := Parameters(ep);
    var q, p := |ep.query|, |ep.pathParams|;
    var zq, zp, zb := ZodParams(ep.query, InQuery), ZodParams(ep.pathParams, InPath), ZodParams(ep.body, InBody);
    assert r == [SessionIdParam()] + zq + zp + zb;
    forall i | 0 <= i < q ensures r[1 + i] == zq[i] { }
    forall i | 0 <= i < p ensures r[1 + q + i] == zp[i] { }
    forall i | 0 <= i < |ep.body| ensures r[1 + q + p + i] == zb[i] { }
  }

  /** The method form of `convertZodSchemaToParameters`. */
  method ConvertParameters(ep: Endpoint) returns (result: seq<A.ToolParam>)
    ensures result == Parameters(ep)
  {
    result := [SessionIdParam()];
    var query := ExtractParameters(ep.query, InQuery);
    result := result + query;
    var pathParams := ExtractParameters(ep.pathParams, InPath);
    result := result + pathParams;
    var body := ExtractParameters(ep.body, InBody);
    result := result + body;
  }

  /** The description `${METHOD} ${path} エンドポイントへのアクセス`. */
  function Description(verb: string, path: string): string {
    MethodLabel(verb) + " " + path + " エンドポイントへのアクセス"
  }

  /** The tool of one endpoint, or `None` when its name cannot be made. */
  function EndpointTool(verb: string, path: string, ep: Endpoint): Option<A.Tool> {
    match ToolName(verb, path)
    case None => None
    case Some(name) => Some(A.Tool(name, Description(verb, path), Parameters(ep), path, MethodLabel(verb), Some(name)))
  }

  /** The tool of an endpoint as a list: empty when the endpoint is skipped. */
  function EndpointTools(verb: string, path: string, ep: Endpoint): seq<A.Tool> {
    match EndpointTool(verb, path, ep)
    case None => []
    case Some(t) => [t]
  }

  function GroupTools(verb: string, endpoints: seq<PathEndpoint>): seq<A.Tool> {
    if endpoints == [] then []
    else
      var e := endpoints[|endpoints| - 1];
      GroupTools(verb, endpoints[..|endpoints| - 1]) + EndpointTools(verb, e.path, e.endpoint)
  }

  function SchemaTools(groups: seq<MethodGroup>): seq<A.Tool> {
    if groups == [] then []
    else SchemaTools(groups[..|groups| - 1]) + GroupTools(groups[|groups| - 1].verb, groups[|groups| - 1].endpoints)
  }

  /** Each tool is named after its own path, carries its name as `operationId` and asks for `sessionId` first. */
  lemma {:induction false} GroupToolsSound(verb: string, endpoints: seq<PathEndpoint>)
    ensures |GroupTools(verb, endpoints)| <= |endpoints|
    ensures forall t :: t in GroupTools(verb, endpoints) ==>
      && Segments(t.path) != [] && Some(t.name) == ToolName(verb, t.path) && t.operationId == Some(t.name)
      && t.httpMethod == MethodLabel(verb) && t.parameters != [] && t.parameters[0] == SessionIdParam()
    decreases |endpoints|
  {
    if endpoints != [] {
      GroupToolsSound(verb, endpoints[..|endpoints| - 1]);
    }
  }

  /** An endpoint whose path has a segment is never skipped. */
  lemma {:induction false} GroupToolsComplete(verb: string, endpoints: seq<PathEndpoint>, k: nat)
    requires k < |endpoints| && Segments(endpoints[k].path) != []
    ensures EndpointTool(verb, endpoints[k].path, endpoints[k].endpoint).Some?
    ensures EndpointTool(verb, endpoints[k].path, endpoints[k].endpoint).value in GroupTools(verb, endpoints)
    decreases |endpoints|
  {
    if k < |endpoints| - 1 {
      assert endpoints[..|endpoints| - 1][k] == endpoints[k];
      GroupToolsComplete(verb, endpoints[..|endpoints| - 1], k);
    }
  }

  lemma GroupToolsSnoc(verb: string, endpoints: seq<PathEndpoint>, j: nat)
    requires j < |endpoints|
    ensures GroupTools(verb, endpoints[..j + 1]) == GroupTools(verb, endpoints[..j]) + EndpointTools(verb, endpoints[j].path, endpoints[j].endpoint)
  {
    assert endpoints[..j + 1][..j] == endpoints[..j];
  }

  /** The `try` block of one endpoint: its tool, or `None` where the name computation throws. */
  method BuildTool(verb: string, path: string, endpoint: Endpoint) returns (tool: Option<A.Tool>)
    ensures tool == EndpointTool(verb, path, endpoint)
  {
    var toolName := ToolName(verb, path);
    if toolName.None? {
      return None;
    }
    var parameters := ConvertParameters(endpoint);
    var name := toolName.value;
    tool := Some(A.Tool(name, Description(verb, path), parameters, path, MethodLabel(verb), Some(name)));
  }

  /** The inner loop of `generateToolsFromZodSchema`: a tool per endpoint, skipping those that throw. */
  method ProcessGroup(verb: string, endpoints: seq<PathEndpoint>, tools: seq<A.Tool>) returns (tools': seq<A.Tool>)
    ensures tools' == tools + GroupTools(verb, endpoints)
  {
    tools' := tools;
    for j := 0 to |endpoints|
      invariant tools' == tools + GroupTools(verb, endpoints[..j])
    {
      var path, endpoint := endpoints[j].path, endpoints[j].endpoint;
      GroupToolsSnoc(verb, endpoints, j);
      var tool := BuildTool(verb, path, endpoint);
      AppendAssoc(tools, GroupTools(verb, endpoints[..j]), EndpointTools(verb, path, endpoint));
      if tool.Some? {
        assert EndpointTools(verb, path, endpoint) == [tool.value];
        tools' := tools' + [tool.value];
      } else {
        assert EndpointTools(verb, path, endpoint) == [];
        assert GroupTools(verb, endpoints[..j]) + [] == GroupTools(verb, endpoints[..j]);
      }
    }
    assert endpoints[..|endpoints|] == endpoints;
  }

  /**
   * `generateToolsFromZodSchema`: `None` stands for a schema file that is
   * missing or fails to load, or one without `EndpointByMethod`; the
   * result is then empty.
   */
  method GenerateToolsFromZodSchema(schema: Option<seq<MethodGroup>>) returns (tools: seq<A.Tool>)
    ensures schema.None? ==> tools == []
    ensures schema.Some? ==> tools == SchemaTools(schema.value)
  {
    tools := [];
    if schema.Some? {
      var groups := schema.value;
      for i := 0 to |groups|
        invariant tools == SchemaTools(groups[..i])
      {
        assert groups[..i + 1][..i] == groups[..i] && groups[..i + 1][i] == groups[i];
        tools := ProcessGroup(groups[i].verb, groups[i].endpoints, tools);
      }
      assert groups[..|groups|] == groups;
    }
  }
}
