/** `genAPISDK` of lib/gen.ts: the route records of the SDK command are
    grouped by class, their parameter types made TypeScript-compatible,
    and each class named for its template and its output file. Reading
    the template, rendering it and writing the files is not part of this
    model. */
module Gen {
  import opened JsonModel
  import opened Text
  import opened Names
  import opened Parse

  /** A `ParamType` as lib/cli/genSdk.ts builds it: `name` and `paramName`
      as read from the parameter, a type string, the location `in`, and
      `required` on the regular parameters only. */
  datatype Param = Param(name: Json, paramName: Json, paramType: string, location: Json, required: Option<Json>)

  /** A `RouteMetadataType` with the `response` and `contentType` the SDK
      command adds. `className` is whatever the operation's first tag is. */
  datatype Route = Route(verb: string, url: string, className: Json, functionName: Json, name: Json,
                         description: Json, params: seq<Param>, response: seq<Param>, contentType: string)

  /** `{...route, paramsInPath}` */
  datatype TemplateRoute = TemplateRoute(route: Route, paramsInPath: seq<Param>)

  // ----- one route -----

  /** The `switch (param.type)` of the type fix-up. */
  function FixParamType(t: string): string {
    if t == "integer" then "number"
    else if t == "array" then "any[]"
    else t
  }

  function FixParam(p: Param): Param {
    p.(paramType := FixParamType(p.paramType))
  }

  /** `route.params` once every parameter has been fixed up. */
  function FixedParams(ps: seq<Param>): (r: seq<Param>)
    ensures |r| == |ps|
  {
    seq(|ps|, i requires 0 <= i < |ps| => FixParam(ps[i]))
  }

  /** `route.params.forEach(param => { switch (param.type) … })`, updating
      each parameter where it stands. */
  method FixParamTypes(ps0: seq<Param>) returns (ps: seq<Param>)
    ensures ps == FixedParams(ps0)
  {
    ps := ps0;
    for i := 0 to |ps|
      invariant |ps| == |ps0|
      invariant forall j :: 0 <= j < i ==> ps[j] == FixParam(ps0[j])
      invariant forall j :: i <= j < |ps| ==> ps[j] == ps0[j]
    {
      ps := ps[i := FixParam(ps[i])];
    }
  }

  /** `params.filter(p => p.in === 'path')` */
  function PathParams(ps: seq<Param>): seq<Param> {
    if ps == [] then []
    else (if StrictEq(ps[0].location, JStr("path")) then [ps[0]] else []) + PathParams(ps[1..])
  }

  /** What one route contributes to its class: the route with its
      parameters fixed up, and its path parameters taken after the fix. */
  function Template(r: Route): TemplateRoute {
    var fixed := FixedParams(r.params);
    TemplateRoute(r.(params := fixed), PathParams(fixed))
  }

  // ----- grouping -----

  /** `metadata[route.className]` uses the class name as a property key. */
  function GroupKey(r: Route): string {
    ToStr(r.className)
  }

  /** The class keys of the routes, in route order and with repeats. */
  function ClassKeys(data: seq<Route>): (ks: seq<string>)
    ensures |ks| == |data|
  {
    seq(|data|, i requires 0 <= i < |data| => GroupKey(data[i]))
  }

  /** One step of the `data.forEach`: a first route of its class opens the
      class's list, and the route is pushed onto it. */
  function AddRoute(metadata: seq<(string, seq<TemplateRoute>)>, r: Route): seq<(string, seq<TemplateRoute>)> {
    match Lookup(metadata, GroupKey(r))
    case None => Put(metadata, GroupKey(r), [Template(r)])
    case Some(list) => Put(metadata, GroupKey(r), list + [Template(r)])
  }

  /** `metadata` after the loop over `data`. */
  function Grouped(data: seq<Route>): seq<(string, seq<TemplateRoute>)>
    decreases |data|
  {
    if data == [] then []
    else AddRoute(Grouped(data[..|data| - 1]), data[|data| - 1])
  }

  /** The routes of class `k`, in input order: the reference the grouping
      is proved against. */
  function RoutesOf(data: seq<Route>, k: string): seq<TemplateRoute>
    decreases |data|
  {
    if data == [] then []
    else RoutesOf(data[..|data| - 1], k)
         + (if GroupKey(data[|data| - 1]) == k then [Template(data[|data| - 1])] else [])
  }

  /** The `data.forEach` loop that fills `metadata`. */
  method GroupRoutes(data: seq<Route>) returns (metadata: seq<(string, seq<TemplateRoute>)>)
    ensures metadata == Grouped(data)
  {
    metadata := [];
    for i := 0 to |data|
      invariant metadata == Grouped(data[..i])
    {
      var route := data[i];
      var key := GroupKey(route);
      var list: seq<TemplateRoute>;
      match Lookup(metadata, key) {
        case None =>
          metadata := Put(metadata, key, []);
          list := [];
          PutPut(Grouped(data[..i]), key, [], [Template(route)]);
          assert [] + [Template(route)] == [Template(route)];
        case Some(l) =>
          list := l;
      }
      var params := FixParamTypes(route.params);
      metadata := Put(metadata, key, list + [TemplateRoute(route.(params := params), PathParams(params))]);
      assert TemplateRoute(route.(params := params), PathParams(params)) == Template(route);
      assert data[..i + 1][..i] == data[..i] && data[..i + 1][i] == route;
      assert Grouped(data[..i + 1]) == AddRoute(Grouped(data[..i]), route);
    }
    assert data[..|data|] == data;
  }

  // ----- the files -----

  /** `new GenConfig` holds the two fields with initializers. */
  const GenConfigDefaults: seq<(string, Json)> := [("camelCase", JBool(false)), ("type", JStr("ts"))]

  /** `{ ...new GenConfig, ...config || {} }` */
  function MergedConfig(config: Json): Json {
    JObj(Spread(GenConfigDefaults, OwnEntries(if Truthy(config) then config else JObj([]))))
  }

  /** `className.replace('Controller', '')` */
  function TypeName(className: string): string {
    ReplaceFirst(className, "Controller", "")
  }

  /** `typeName[0].toLowerCase() + typeName.slice(1)`: an empty name has no
      first character to lower. */
  function InstanceName(typeName: string): Result<string> {
    if typeName == [] then Err(TypeError) else Ok(LowerFirst(typeName))
  }

  /** `${config.camelCase ? toCamelCase(typeName) : toHyphenCase(typeName)}.${config.type}` */
  function SdkFileName(config: Json, typeName: string): string {
    (if Truthy(Get(config, "camelCase")) then ToCamelCase(typeName) else ToHyphenCase(typeName))
      + "." + ToStr(Get(config, "type"))
  }

  /** What is rendered and written for one class. */
  datatype SdkFile = SdkFile(className: string, instanceName: string, fileName: string, methodMetadata: seq<TemplateRoute>)

  function SdkFileOf(config: Json, entry: (string, seq<TemplateRoute>)): Result<SdkFile> {
    var typeName := TypeName(entry.0);
    var instanceName :- InstanceName(typeName);
    Ok(SdkFile(typeName, instanceName, SdkFileName(config, typeName), entry.1))
  }

  /** The files written for the classes of `metadata`, in its order. */
  function SdkFiles(config: Json, metadata: seq<(string, seq<TemplateRoute>)>): Result<seq<SdkFile>> {
    MapThrowing(entry => SdkFileOf(config, entry), metadata)
  }

  /** The files `genAPISDK` writes, one per class in first-appearance
      order, or the exception that stops it. */
  function GenApiSdk(data: seq<Route>, config: Json): Result<seq<SdkFile>> {
    SdkFiles(MergedConfig(config), Grouped(data))
  }

  /** `genAPISDK`: the grouping loop, then the loop over the classes. */
  method GenApiSdkFiles(data: seq<Route>, config: Json) returns (r: Result<seq<SdkFile>>)
    ensures r == GenApiSdk(data, config)
  {
    var metadata := GroupRoutes(data);
    r := WriteSdkFiles(MergedConfig(config), metadata);
  }

  /** `Object.keys(metadata).forEach(className => …)` */
  method WriteSdkFiles(config: Json, metadata: seq<(string, seq<TemplateRoute>)>) returns (r: Result<seq<SdkFile>>)
    ensures r == SdkFiles(config, metadata)
  {
    var f := entry => SdkFileOf(config, entry);
    var files: seq<SdkFile> := [];
    for i := 0 to |metadata|
      invariant MapThrowing(f, metadata[..i]) == Ok(files)
    {
      var file := f(metadata[i]);
      if file.Err? {
        MapThrowingStopsAt(f, metadata, i);
        return Err(file.error);
      }
      MapThrowingSnoc(f, metadata, i);
      files := files + [file.value];
    }
    assert metadata[..|metadata|] == metadata;
    return Ok(files);
  }
}
