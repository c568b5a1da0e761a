/** The checks and the conversion pipeline of lib/index.ts: `genFromData`
    merges the config over the `CliConfig` defaults, refuses documents
    without `paths` or `info`, converts Swagger 2.0 documents
    (`convertSwagger2OpenAPI`) and refuses any whose `openapi` does not
    begin with `3.`. Clearing the output directory, writing `oas.json` and
    running the generator are not part of this model; the converter
    `s2o` is a parameter. */
module Index {
  import opened JsonModel
  import opened Parse
  import opened FixSwagger
  import opened FixOpenApi
  import opened TagRemap

  /** The own properties of `new CliConfig`: the fields with initializers
      of the `GenConfig` of lib/ServiceGenerator.ts in declaration order,
      then `autoClear`; `ignoreDelete` is declared by both classes and
      keeps its first place. */
  const CliConfigDefaults: seq<(string, Json)> :=
    [("requestLib", JBool(true)), ("camelCase", JBool(false)), ("type", JStr("ts")),
     ("serviceType", JStr("function")), ("namespace", JStr("API")), ("ignoreDelete", JArr([])),
     ("autoClear", JBool(true))]

  /** `{ ...new CliConfig, ...config }` */
  function MergedCliConfig(config: Json): Json {
    JObj(Spread(CliConfigDefaults, OwnEntries(config)))
  }

  /** `convertSwagger2OpenAPI(data)`: `fixSwagger`, then the converter,
      then `fixOpenAPI`, then the tag remap; the first exception stops it.
      `renamePrefix` stands for the prefix of lib/util/const.ts. */
  function ConvertSwagger2OpenApi(renamePrefix: string, data: Json, convert: Json -> Result<Json>): Result<Json> {
    var (fixed, err) := FixSwaggerSpec(renamePrefix, data);
    if err.Some? then Err(err.value)
    else
      var converted :- convert(fixed);
      var tagged :- FixOpenApiSpec(converted);
      RemapTagsSpec(tagged)
  }

  /** The four passes, one after the other. */
  method ConvertSwagger2OpenApiDoc(renamePrefix: string, data: Json, convert: Json -> Result<Json>) returns (r: Result<Json>)
    ensures r == ConvertSwagger2OpenApi(renamePrefix, data, convert)
  {
    var fixed, err := FixSwaggerDoc(renamePrefix, data);
    if err.Some? {
      return Err(err.value);
    }
    var doc :- convert(fixed);
    doc :- FixOpenApi.FixOpenApi(doc);
    r := RemapTags(doc);
  }

  /** `!data.openapi || !data.openapi.startsWith('3.')`: only a string has
      `startsWith`. */
  function CheckOpenApi3(doc: Json): Result<Json> {
    var version :- Read(doc, "openapi");
    if !Truthy(version) then Err(BadVersion)
    else if !version.JStr? then Err(TypeError)
    else if "3." <= version.s then Ok(doc)
    else Err(BadVersion)
  }

  /** What `genFromData` hands the generator: the merged config and the
      checked document, or the exception that stops it first. */
  function GenFromDataSpec(renamePrefix: string, config: Json, data: Json, convert: Json -> Result<Json>): Result<(Json, Json)> {
    var merged := MergedCliConfig(config);
    if !Truthy(data) || !Truthy(Get(data, "paths")) || !Truthy(Get(data, "info")) then Err(BadFormat)
    else
      var doc :- if StrictEq(Get(data, "swagger"), JStr("2.0")) then ConvertSwagger2OpenApi(renamePrefix, data, convert) else Ok(data);
      var checked :- CheckOpenApi3(doc);
      Ok((merged, checked))
  }

  /** `genFromData` up to the generator, statement by statement. */
  method GenFromData(renamePrefix: string, config: Json, data: Json, convert: Json -> Result<Json>) returns (r: Result<(Json, Json)>)
    ensures r == GenFromDataSpec(renamePrefix, config, data, convert)
  {
    var merged := MergedCliConfig(config);
    if !Truthy(data) || !Truthy(Get(data, "paths")) || !Truthy(Get(data, "info")) {
      return Err(BadFormat);
    }
    var doc := data;
    if StrictEq(Get(doc, "swagger"), JStr("2.0")) {
      doc :- ConvertSwagger2OpenApiDoc(renamePrefix, doc, convert);
    }
    doc :- CheckOpenApi3(doc);
    return Ok((merged, doc));
  }
}
