/** What lib/index.ts promises: explicit config fields win over the
    `CliConfig` defaults, a document without `paths` or `info` is refused
    before any pass runs, the Swagger 2.0 passes stop at their first
    exception, and the version check accepts any `3.` version. */
module IndexLaws {
  import opened JsonModel
  import opened Parse
  import opened FixSwagger
  import opened FixOpenApi
  import opened TagRemap
  import opened Index

  /** A config object's own keys override the defaults, and every other
      key reads the default. */
  lemma MergedCliConfigLaws(config: Json)
    requires config.JObj? && DistinctKeys(config.fields)
    ensures forall k :: k in Keys(config.fields) ==> Get(MergedCliConfig(config), k) == Get(config, k)
    ensures forall k :: k !in Keys(config.fields) ==> Get(MergedCliConfig(config), k) == Get(JObj(CliConfigDefaults), k)
  {
    forall k ensures Get(MergedCliConfig(config), k)
                     == if k in Keys(config.fields) then Get(config, k) else Get(JObj(CliConfigDefaults), k) {
      MergedCliConfigGet(config, k);
    }
  }

  /** `autoClear` is `true` and `ignoreDelete` empty unless the config
      says otherwise. */
  lemma MergedCliConfigDefaults(config: Json)
    requires config.JObj? && DistinctKeys(config.fields)
    ensures "autoClear" !in Keys(config.fields) ==> Get(MergedCliConfig(config), "autoClear") == JBool(true)
    ensures "ignoreDelete" !in Keys(config.fields) ==> Get(MergedCliConfig(config), "ignoreDelete") == JArr([])
  {
    MergedCliConfigGet(config, "autoClear");
    MergedCliConfigGet(config, "ignoreDelete");
    CliConfigDefaultValues();
  }

  lemma MergedCliConfigGet(config: Json, k: string)
    requires config.JObj? && DistinctKeys(config.fields)
    ensures Get(MergedCliConfig(config), k) == if k in Keys(config.fields) then Get(config, k) else Get(JObj(CliConfigDefaults), k)
  {
    MergedCliConfigSpread(config);
    SpreadLaws(CliConfigDefaults, config.fields);
  }

  lemma CliConfigDefaultValues()
    ensures Get(JObj(CliConfigDefaults), "autoClear") == JBool(true)
    ensures Get(JObj(CliConfigDefaults), "ignoreDelete") == JArr([])
  {
    var d := CliConfigDefaults;
    assert d[6].0 == "autoClear" && d[5].0 == "ignoreDelete";
    LookupEntry(d, 6);
    LookupEntry(d, 5);
  }

  lemma MergedCliConfigSpread(config: Json)
    requires config.JObj? && DistinctKeys(config.fields)
    ensures MergedCliConfig(config) == JObj(Spread(CliConfigDefaults, config.fields))
  {
    assert [] + config.fields == config.fields;
    SpreadAppends([], config.fields);
  }

  /** Spreading no config, null or undefined, keeps the defaults. */
  lemma MergedCliConfigAbsent(config: Json)
    requires config == JNull || config == JUndef
    ensures MergedCliConfig(config) == JObj(CliConfigDefaults)
  {
  }

  /** An exception of `fixSwagger` stops the conversion before the
      converter runs, and one of the converter stops it before
      `fixOpenAPI`. */
  lemma ConvertStopsAtFirstError(renamePrefix: string, data: Json, convert: Json -> Result<Json>)
    ensures FixSwaggerSpec(renamePrefix, data).1.Some? ==>
              ConvertSwagger2OpenApi(renamePrefix, data, convert) == Err(FixSwaggerSpec(renamePrefix, data).1.value)
    ensures FixSwaggerSpec(renamePrefix, data).1.None? && convert(FixSwaggerSpec(renamePrefix, data).0).Err? ==>
              ConvertSwagger2OpenApi(renamePrefix, data, convert) == Err(convert(FixSwaggerSpec(renamePrefix, data).0).error)
    ensures FixSwaggerSpec(renamePrefix, data).1.None? && convert(FixSwaggerSpec(renamePrefix, data).0).Ok? ==>
              var tagged := FixOpenApiSpec(convert(FixSwaggerSpec(renamePrefix, data).0).value);
              ConvertSwagger2OpenApi(renamePrefix, data, convert) == (if tagged.Ok? then RemapTagsSpec(tagged.value) else Err(tagged.error))
  {
  }

  /** Only a string `openapi` that begins with `3.` passes, unchanged. */
  lemma CheckOpenApi3Laws(doc: Json)
    ensures CheckOpenApi3(doc).Ok? <==>
              doc != JNull && doc != JUndef && Get(doc, "openapi").JStr? && "3." <= Get(doc, "openapi").s
    ensures CheckOpenApi3(doc).Ok? ==> CheckOpenApi3(doc).value == doc
    ensures doc != JNull && doc != JUndef && !Truthy(Get(doc, "openapi")) ==> CheckOpenApi3(doc) == Err(BadVersion)
  {
    var v := Get(doc, "openapi");
    if v.JStr? && "3." <= v.s {
      assert v.s != [];
    }
  }

  /** `3.1.0` passes here; `2.0` does not. */
  lemma CheckOpenApi3Examples()
    ensures CheckOpenApi3(JObj([("openapi", JStr("3.1.0"))])).Ok?
    ensures CheckOpenApi3(JObj([("openapi", JStr("2.0"))])) == Err(BadVersion)
  {
    var doc := JObj([("openapi", JStr("3.1.0"))]);
    assert Get(doc, "openapi") == JStr("3.1.0");
    assert "3." <= "3.1.0";
    var old2 := JObj([("openapi", JStr("2.0"))]);
    assert Get(old2, "openapi") == JStr("2.0");
    assert "2.0"[0] != "3."[0];
  }

  /** A document without `paths` or `info` is refused whatever the config
      and the converter; any other document that is not Swagger 2.0 is
      only checked; an accepted document carries a `3.` version, and the
      config handed on is always the merged one. */
  lemma GenFromDataLaws(renamePrefix: string, config: Json, data: Json, convert: Json -> Result<Json>)
    ensures !Truthy(data) || !Truthy(Get(data, "paths")) || !Truthy(Get(data, "info")) ==>
              GenFromDataSpec(renamePrefix, config, data, convert) == Err(BadFormat)
    ensures Truthy(data) && Truthy(Get(data, "paths")) && Truthy(Get(data, "info"))
            && !StrictEq(Get(data, "swagger"), JStr("2.0")) ==>
              (GenFromDataSpec(renamePrefix, config, data, convert).Ok? <==> CheckOpenApi3(data).Ok?)
    ensures GenFromDataSpec(renamePrefix, config, data, convert).Ok? ==>
              var (merged, doc) := GenFromDataSpec(renamePrefix, config, data, convert).value;
              merged == MergedCliConfig(config)
              && Get(doc, "openapi").JStr? && "3." <= Get(doc, "openapi").s
  {
    var doc := if StrictEq(Get(data, "swagger"), JStr("2.0")) then ConvertSwagger2OpenApi(renamePrefix, data, convert) else Ok(data);
    if doc.Ok? {
      CheckOpenApi3Laws(doc.value);
    }
  }
}
