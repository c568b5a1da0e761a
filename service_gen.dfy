/** The lists lib/ServiceGenerator.ts hands its templates: `genInterface`
    builds one entry per component schema, `genService` one entry per API
    of each tag, and `getFinalFileName` names each service file. Rendering
    and writing the files is not part of this model. */
module ServiceGen {
  import opened JsonModel
  import opened Text
  import opened Names
  import opened Parse
  import opened TypeMap
  import opened ServiceRefs
  import opened ServiceParams

  /** The generator options these lists depend on: `camelCase`, `type` and
      `namespace`. */
  datatype ServiceConfig = ServiceConfig(camelCase: Json, genType: string, namespace: string)

  /** `[a, b].filter(s => s).join(' ')` */
  function Describe(a: Json, b: Json): string {
    Join((if Truthy(a) then [ToStr(a)] else []) + (if Truthy(b) then [ToStr(b)] else []), " ")
  }

  // ----- genInterface -----

  /** `requiredPropKeys.some(key => key === propName)`: only arrays have
      `some`. */
  function IsRequired(required: Json, name: string): Result<bool> {
    if required.JArr? then Ok(JStr(name) in required.items) else Err(TypeError)
  }

  /** `{...propSchema, name, type, desc, required}` for one property. */
  function PropEntry(name: string, propSchema: Json, required: Json): Result<Json> {
    var t :- ServiceType(propSchema, "");
    var desc := Describe(Get(propSchema, "title"), Get(propSchema, "description"));
    var isRequired :- IsRequired(required, name);
    Ok(JObj(Spread(OwnEntries(propSchema),
      [("name", JStr(name)), ("type", JStr(t)), ("desc", JStr(desc)), ("required", JBool(isRequired))])))
  }

  /** `Object.keys(props.properties).map(…)` */
  function PropEntries(properties: Json, names: seq<string>, required: Json): Result<seq<Json>> {
    MapThrowing(name => PropEntry(name, Get(properties, name), required), names)
  }

  /** `props.properties && Object.keys(props.properties).map(…)` */
  function PropList(props: Json, required: Json): Result<Json> {
    var properties := Get(props, "properties");
    if !Truthy(properties) then Ok(properties)
    else
      var names :- ObjectKeys(properties);
      var entries :- PropEntries(properties, names, required);
      Ok(JArr(entries))
  }

  /** The entry for one component schema: its ref resolved, rejected unless
      its `type` is `object`, with `required` defaulting to `[]`. */
  function InterfaceDef(root: Json, depth: nat, typeName: string, schema: Json): Result<Json> {
    var props :- ResolveRefObject(root, schema, depth);
    var tag :- Read(props, "type");
    if tag != JStr("object") then Err(UnsupportedInterfaceType(typeName, tag))
    else
      var required := if Truthy(Get(props, "required")) then Get(props, "required") else JArr([]);
      var t :- ServiceType(props, "");
      var list :- PropList(props, required);
      Ok(JObj([("typeName", JStr(typeName)), ("type", JStr(t)), ("props", list)]))
  }

  /** `Object.keys(defines).map(typeName => …)` */
  function InterfaceDefs(root: Json, depth: nat, defines: Json, names: seq<string>): Result<seq<Json>> {
    MapThrowing(typeName => InterfaceDef(root, depth, typeName, Get(defines, typeName)), names)
  }

  /** `genInterface`'s list: one entry per key of `components.schemas`. */
  function GenInterface(root: Json, depth: nat): Result<seq<Json>> {
    var components :- Read(root, "components");
    var defines :- Read(components, "schemas");
    var names :- ObjectKeys(defines);
    InterfaceDefs(root, depth, defines, names)
  }

  // ----- genService -----

  /** The entry for one API: its path's `{x}` rewritten to `${x}` (only a
      string path has `replace`) and its three template params built. */
  function ApiEntry(root: Json, depth: nat, namespace: string, api: Json): Result<Json> {
    var path :- Read(api, "path");
    if !path.JStr? then Err(TypeError)
    else
      var params :- TemplateParams(root, depth, namespace, Get(api, "parameters"));
      var body :- BodyParam(root, depth, namespace, Get(api, "requestBody"));
      var response :- ResponseParam(root, depth, namespace, Get(api, "responses"));
      Ok(ApiObject(api, RewritePathParams(path.s), params, body, response))
  }

  /** `{...api, path, method, desc, hasHeader, params, body, response}` */
  function ApiObject(api: Json, url: string, params: Json, body: Json, response: Json): Json {
    var hasHeader := (Truthy(params) && Truthy(Get(params, "header")))
                     || (Truthy(body) && Truthy(Get(body, "mediaType")));
    var desc := Describe(Get(api, "summary"), Get(api, "description"));
    JObj(Spread(OwnEntries(api),
      [("path", JStr(url)), ("method", Get(api, "method")), ("desc", JStr(desc)),
       ("hasHeader", JBool(hasHeader)), ("params", params), ("body", body), ("response", response)]))
  }

  /** `this.apiData[tag].map(api => …)` */
  function ApiEntries(root: Json, depth: nat, namespace: string, apis: seq<Json>): Result<seq<Json>> {
    MapThrowing(api => ApiEntry(root, depth, namespace, api), apis)
  }

  /** `getFinalFileName(fileName)`: `camelCase === true` gives camel case,
      `'lower'` camel case with a lower-case first letter (an empty name
      has no first letter to lower), anything else hyphen case. */
  function FinalFileName(camelCase: Json, fileName: string): Result<string> {
    if camelCase == JBool(true) then Ok(ToCamelCase(fileName))
    else if camelCase == JStr("lower") then
      var s := ToCamelCase(fileName);
      if s == [] then Err(TypeError) else Ok(LowerFirst(s))
    else Ok(ToHyphenCase(fileName))
  }

  /** A service file: its name and the template list of its APIs. */
  datatype ServiceFile = ServiceFile(fileName: string, list: seq<Json>)

  /** The service file for one tag, named from `${tag}.${type}`. */
  function TagFile(root: Json, depth: nat, config: ServiceConfig, apiData: Json, tag: string): Result<ServiceFile> {
    var apis := Get(apiData, tag);
    if !apis.JArr? then Err(TypeError)
    else
      var list :- ApiEntries(root, depth, config.namespace, apis.items);
      var fileName :- FinalFileName(config.camelCase, tag + "." + config.genType);
      Ok(ServiceFile(fileName, list))
  }

  /** `Object.keys(this.apiData).forEach(tag => …)`: one file per tag. */
  function TagFiles(root: Json, depth: nat, config: ServiceConfig, apiData: Json, tags: seq<string>): Result<seq<ServiceFile>> {
    MapThrowing(tag => TagFile(root, depth, config, apiData, tag), tags)
  }

  /** `genService`: one file per key of the API data, in key order. */
  function GenService(root: Json, depth: nat, config: ServiceConfig, apiData: Json): Result<seq<ServiceFile>> {
    var tags :- ObjectKeys(apiData);
    TagFiles(root, depth, config, apiData, tags)
  }

  /** What `genFile` generates: the interface list only for `ts` output,
      built before the service files. */
  datatype Generated = Generated(interfaces: Option<seq<Json>>, services: seq<ServiceFile>)

  function GenFile(root: Json, depth: nat, config: ServiceConfig, apiData: Json): Result<Generated> {
    var interfaces :- if config.genType == "ts" then
                        (var defs :- GenInterface(root, depth); Ok(Some(defs)))
                      else Ok(None);
    var services :- GenService(root, depth, config, apiData);
    Ok(Generated(interfaces, services))
  }
}
