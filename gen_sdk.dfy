/** The SDK command of lib/cli/genSdk.ts (`genAPISDKFromUrl`): the
    document is checked, a Swagger 2.0 document is converted and its tags
    remapped, every operation becomes a route record, and the routes go to
    `genAPISDK`. Fetching the document, the converter itself and clearing
    the output directory are not part of this model: the document and the
    converter are parameters. */
module GenSdk {
  import opened JsonModel
  import opened Text
  import opened Parse
  import opened TypeMap
  import opened TagRemap
  import opened Gen

  /** The keys `for (const k in v)` visits: none for null and undefined,
      which a for-in loop skips without throwing. */
  function ForInKeys(v: Json): (ks: seq<string>)
    ensures v.JObj? ==> ks == Keys(v.fields)
    ensures v == JNull || v == JUndef ==> ks == []
  {
    if v == JNull || v == JUndef then [] else ObjectKeys(v).value
  }

  // ----- getParams -----

  /** The `map` callback of `getParams`: reading `name` of a null or
      undefined parameter throws, `required` defaults to `false`. */
  function ParamOf(p: Json): Result<Param> {
    var name :- Read(p, "name");
    var t :- GetType(Get(p, "schema"));
    var required := Get(p, "required");
    Ok(Param(name, name, t, Get(p, "in"), Some(if Truthy(required) then required else JBool(false))))
  }

  /** `(parameters || []).map(…)`: only an array has `map`. */
  function RegularParams(parameters: Json): Result<seq<Param>> {
    var list := if Truthy(parameters) then parameters else JArr([]);
    if !list.JArr? then Err(TypeError) else MapThrowing(ParamOf, list.items)
  }

  /** The key `Object.keys(content)[0]` names: `undefined`, spelt as a
      property key, when there are no keys. */
  function FirstKey(content: Json): string
    requires content != JNull && content != JUndef
  {
    var keys := ObjectKeys(content).value;
    if keys == [] then "undefined" else keys[0]
  }

  /** `requestBody.content && requestBody.content[firstKey].schema`: the
      schema of the first media type; a missing first media type throws. */
  function BodySchema(requestBody: Json): Result<Json> {
    var content := Get(requestBody, "content");
    if !Truthy(content) then Ok(content)
    else Read(Get(content, FirstKey(content)), "schema")
  }

  /** The entry the for-in loop over `postData` pushes for key `k`. */
  function PropertyParam(postData: Json, k: string): Result<Param> {
    var t :- GetType(Get(postData, k));
    Ok(Param(JStr(k), JStr(k), t, JStr("body"), None))
  }

  /** The `switch (bodySchema.type)`: an object schema gives one entry per
      property, any other schema a single `$body` entry, and no schema no
      entry. */
  function BodyParams(bodySchema: Json): Result<seq<Param>> {
    if !Truthy(bodySchema) then Ok([])
    else if StrictEq(Get(bodySchema, "type"), JStr("object")) then
      var properties := Get(bodySchema, "properties");
      var postData := if Truthy(properties) then properties else JObj([]);
      MapThrowing(k => PropertyParam(postData, k), ForInKeys(postData))
    else
      var t :- GetType(bodySchema);
      Ok([Param(JStr("$body"), JStr("$body"), t, JStr("body"), None)])
  }

  /** `getParams(parameters, requestBody)`: the regular parameters, then
      the body entries. */
  function ParamsOf(parameters: Json, requestBody: Json): Result<seq<Param>> {
    var regular :- RegularParams(parameters);
    var bodySchema :- BodySchema(requestBody);
    var body :- BodyParams(bodySchema);
    Ok(regular + body)
  }

  /** `getParams`, with the for-in loop over the body properties. */
  method GetParams(parameters: Json, requestBody: Json) returns (r: Result<seq<Param>>)
    ensures r == ParamsOf(parameters, requestBody)
  {
    var params :- RegularParams(parameters);
    var bodySchema :- BodySchema(requestBody);
    if !Truthy(bodySchema) {
      assert params + [] == params;
      return Ok(params);
    }
    if StrictEq(Get(bodySchema, "type"), JStr("object")) {
      var properties := Get(bodySchema, "properties");
      var postData := if Truthy(properties) then properties else JObj([]);
      var body := PushProperties(postData);
      if body.Err? {
        return Err(body.error);
      }
      return Ok(params + body.value);
    }
    var t :- GetType(bodySchema);
    return Ok(params + [Param(JStr("$body"), JStr("$body"), t, JStr("body"), None)]);
  }

  /** `for (const k in postData) params.push(…)` */
  method PushProperties(postData: Json) returns (r: Result<seq<Param>>)
    ensures r == MapThrowing(k => PropertyParam(postData, k), ForInKeys(postData))
  {
    var f := k => PropertyParam(postData, k);
    var keys := ForInKeys(postData);
    var body: seq<Param> := [];
    for i := 0 to |keys|
      invariant MapThrowing(f, keys[..i]) == Ok(body)
    {
      var entry := f(keys[i]);
      if entry.Err? {
        MapThrowingStopsAt(f, keys, i);
        return Err(entry.error);
      }
      MapThrowingSnoc(f, keys, i);
      body := body + [entry.value];
    }
    assert keys[..|keys|] == keys;
    return Ok(body);
  }

  // ----- getResponse -----

  /** `getResponse(responses)`: one `string` body entry per key of the
      responses, in key order. */
  function ResponseParams(responses: Json): (r: seq<Param>)
    ensures |r| == |ForInKeys(responses)|
  {
    var keys := ForInKeys(responses);
    seq(|keys|, i requires 0 <= i < |keys| => Param(JStr(keys[i]), JStr(keys[i]), "string", JStr("body"), None))
  }

  /** `for (const k in responses) response.push(…)` */
  method GetResponse(responses: Json) returns (response: seq<Param>)
    ensures response == ResponseParams(responses)
  {
    var keys := ForInKeys(responses);
    response := [];
    for i := 0 to |keys|
      invariant response == ResponseParams(responses)[..i]
    {
      response := response + [Param(JStr(keys[i]), JStr(keys[i]), "string", JStr("body"), None)];
    }
  }

  // ----- the route records -----

  /** `data.tags[0] || 'Default'`: an operation without `tags` throws. */
  function ClassName(op: Json): Result<Json> {
    var first :- Read(Get(op, "tags"), "0");
    Ok(if Truthy(first) then first else JStr("Default"))
  }

  /** `requestBody.content && Object.keys(requestBody.content)[0] || ''` */
  function ContentType(requestBody: Json): string {
    var content := Get(requestBody, "content");
    if !Truthy(content) then ""
    else
      var keys := ForInKeys(content);
      if keys != [] && keys[0] != "" then keys[0] else ""
  }

  /** The record `apis.push` receives for the truthy operation `op` under
      method `verb`, its fields built in the order they are written. */
  function RouteOf(url: string, verb: string, op: Json): Result<Route> {
    var requestBody := if Truthy(Get(op, "requestBody")) then Get(op, "requestBody") else JObj([]);
    var className :- ClassName(op);
    var params :- ParamsOf(Get(op, "parameters"), requestBody);
    Ok(Route(verb, url, className, Get(op, "operationId"), Get(op, "summary"), Get(op, "description"),
             params, ResponseParams(Get(op, "responses")), ContentType(requestBody)))
  }

  /** `for (const method in pathItem)` from the `i`-th method on, pushing
      onto `apis` a record for each truthy operation. */
  function ItemRoutes(url: string, item: Json, verbs: seq<string>, i: nat, apis: seq<Route>): Result<seq<Route>>
    requires i <= |verbs|
    decreases |verbs| - i
  {
    if i == |verbs| then Ok(apis)
    else
      var op := Get(item, verbs[i]);
      if !Truthy(op) then ItemRoutes(url, item, verbs, i + 1, apis)
      else
        var route :- RouteOf(url, verbs[i], op);
        ItemRoutes(url, item, verbs, i + 1, apis + [route])
  }

  /** `Object.keys(data.paths).forEach(path => …)` from the `i`-th path
      on: a path containing `$` is skipped, every other one has its `{x}`
      rewritten to `${x}` and its operations pushed. */
  function PathRoutes(paths: Json, keys: seq<string>, i: nat, apis: seq<Route>): Result<seq<Route>>
    requires i <= |keys|
    decreases |keys| - i
  {
    if i == |keys| then Ok(apis)
    else if '$' in keys[i] then PathRoutes(paths, keys, i + 1, apis)
    else
      var item := Get(paths, keys[i]);
      var next :- ItemRoutes(RewritePathParams(keys[i]), item, ForInKeys(item), 0, apis);
      PathRoutes(paths, keys, i + 1, next)
  }

  /** The routes of a document's `paths`; `Object.keys` of null or
      undefined throws. */
  function Routes(paths: Json): Result<seq<Route>> {
    var keys :- ObjectKeys(paths);
    PathRoutes(paths, keys, 0, [])
  }

  /** The outer loop of the route building. */
  method BuildRoutes(paths: Json) returns (r: Result<seq<Route>>)
    ensures r == Routes(paths)
  {
    var keys :- ObjectKeys(paths);
    r := PushPathRoutes(paths, keys);
  }

  /** `keys.forEach(path => …)` */
  method PushPathRoutes(paths: Json, keys: seq<string>) returns (r: Result<seq<Route>>)
    ensures r == PathRoutes(paths, keys, 0, [])
  {
    var apis: seq<Route> := [];
    var i := 0;
    while i < |keys|
      invariant 0 <= i <= |keys|
      invariant PathRoutes(paths, keys, 0, []) == PathRoutes(paths, keys, i, apis)
    {
      if '$' !in keys[i] {
        var item := Get(paths, keys[i]);
        var next := PushItemRoutes(RewritePathParams(keys[i]), item, apis);
        PathRoutesPushes(paths, keys, i, apis, next);
        if next.Err? {
          return Err(next.error);
        }
        apis := next.value;
      } else {
        PathRoutesSkips(paths, keys, i, apis);
      }
      i := i + 1;
    }
    return Ok(apis);
  }

  /** One step of the outer loop over a path with `$`. */
  lemma PathRoutesSkips(paths: Json, keys: seq<string>, i: nat, apis: seq<Route>)
    requires i < |keys| && '$' in keys[i]
    ensures PathRoutes(paths, keys, i, apis) == PathRoutes(paths, keys, i + 1, apis)
  {
  }

  /** One step of the outer loop over a path without `$`. */
  lemma PathRoutesPushes(paths: Json, keys: seq<string>, i: nat, apis: seq<Route>, next: Result<seq<Route>>)
    requires i < |keys| && '$' !in keys[i]
    requires next == ItemRoutes(RewritePathParams(keys[i]), Get(paths, keys[i]), ForInKeys(Get(paths, keys[i])), 0, apis)
    ensures PathRoutes(paths, keys, i, apis)
            == if next.Err? then Err(next.error) else PathRoutes(paths, keys, i + 1, next.value)
  {
  }

  /** The inner loop, over the methods of one path item. */
  method PushItemRoutes(url: string, item: Json, apis0: seq<Route>) returns (r: Result<seq<Route>>)
    ensures r == ItemRoutes(url, item, ForInKeys(item), 0, apis0)
  {
    var verbs := ForInKeys(item);
    var apis := apis0;
    var j := 0;
    while j < |verbs|
      invariant 0 <= j <= |verbs|
      invariant ItemRoutes(url, item, verbs, 0, apis0) == ItemRoutes(url, item, verbs, j, apis)
    {
      var op := Get(item, verbs[j]);
      if Truthy(op) {
        var route := RouteOf(url, verbs[j], op);
        ItemRoutesPushes(url, item, verbs, j, apis, route);
        if route.Err? {
          return Err(route.error);
        }
        apis := apis + [route.value];
      } else {
        ItemRoutesSkips(url, item, verbs, j, apis);
      }
      j := j + 1;
    }
    return Ok(apis);
  }

  /** One step of the inner loop over a truthy operation. */
  lemma ItemRoutesPushes(url: string, item: Json, verbs: seq<string>, j: nat, apis: seq<Route>, route: Result<Route>)
    requires j < |verbs| && Truthy(Get(item, verbs[j])) && route == RouteOf(url, verbs[j], Get(item, verbs[j]))
    ensures ItemRoutes(url, item, verbs, j, apis)
            == if route.Err? then Err(route.error) else ItemRoutes(url, item, verbs, j + 1, apis + [route.value])
  {
  }

  /** One step of the inner loop over a falsy entry. */
  lemma ItemRoutesSkips(url: string, item: Json, verbs: seq<string>, j: nat, apis: seq<Route>)
    requires j < |verbs| && !Truthy(Get(item, verbs[j]))
    ensures ItemRoutes(url, item, verbs, j, apis) == ItemRoutes(url, item, verbs, j + 1, apis)
  {
  }

  // ----- the document -----

  /** What `resolveRef(root, node)` leaves in `node` itself when its
      result is dropped: null and undefined throw, a truthy `$ref` that is
      not a string throws, a `#`-rooted one returns a copy, and every other
      node has its children resolved where they stand. */
  function ResolvedInPlace(root: Json, node: Json): Json {
    if node == JNull || node == JUndef then node
    else
      var target := Get(node, "$ref");
      if Truthy(target) && (!target.JStr? || RootedPath(target.s).Some?) then node
      else ResolveChildren(root, node)
  }

  /** `resolveRef(data, data.paths)` as a statement: reading `paths` of
      null or undefined throws before the call. Every child is resolved
      against `doc` as it was before the call, where the source walks the
      live document and sees the children it has already resolved. */
  function ResolvePaths(doc: Json): Result<Json> {
    var paths :- Read(doc, "paths");
    var after := ResolvedInPlace(doc, paths);
    Ok(if after == paths then doc else Set(doc, "paths", after))
  }

  /** The Swagger 2.0 branch: refs resolved, the document converted by
      `convert` (which stands for `s2o`), refs resolved again, and the
      tags remapped. */
  function FromSwagger2(data: Json, convert: Json -> Result<Json>): Result<Json> {
    var resolved :- ResolvePaths(data);
    var converted :- convert(resolved);
    var again :- ResolvePaths(converted);
    RemapTagsSpec(again)
  }

  /** `!data.openapi || !data.openapi.startsWith('3.0.')`: only a string
      has `startsWith`. */
  function CheckVersion(doc: Json): Result<Json> {
    var version :- Read(doc, "openapi");
    if !Truthy(version) then Err(BadVersion)
    else if !version.JStr? then Err(TypeError)
    else if "3.0." <= version.s then Ok(doc)
    else Err(BadVersion)
  }

  /** The document the routes are built from, or the exception that stops
      the command first. */
  function SdkDocument(data: Json, convert: Json -> Result<Json>): Result<Json> {
    if !Truthy(data) || !Truthy(Get(data, "paths")) || !Truthy(Get(data, "info")) then Err(BadFormat)
    else
      var doc :- if StrictEq(Get(data, "swagger"), JStr("2.0")) then FromSwagger2(data, convert) else Ok(data);
      CheckVersion(doc)
  }

  /** `genAPISDKFromUrl` after the fetch: the checked document's routes
      handed to `genAPISDK` with the command's config. */
  function SdkFromUrl(data: Json, convert: Json -> Result<Json>, config: Json): Result<seq<SdkFile>> {
    var doc :- SdkDocument(data, convert);
    var routes :- Routes(Get(doc, "paths"));
    GenApiSdk(routes, config)
  }

  /** `genAPISDKFromUrl`, statement by statement. */
  method GenApiSdkFromUrl(data: Json, convert: Json -> Result<Json>, config: Json) returns (r: Result<seq<SdkFile>>)
    ensures r == SdkFromUrl(data, convert, config)
  {
    if !Truthy(data) || !Truthy(Get(data, "paths")) || !Truthy(Get(data, "info")) {
      return Err(BadFormat);
    }
    var doc := data;
    if StrictEq(Get(doc, "swagger"), JStr("2.0")) {
      doc :- ResolvePaths(doc);
      doc :- convert(doc);
      doc :- ResolvePaths(doc);
      doc :- RemapTags(doc);
    }
    doc :- CheckVersion(doc);
    var routes :- BuildRoutes(Get(doc, "paths"));
    r := GenApiSdkFiles(routes, config);
  }
}
