/** What the interface and service lists of lib/ServiceGenerator.ts hold. */
module ServiceGenLaws {
  import opened JsonModel
  import opened Text
  import opened Names
  import opened Parse
  import opened TypeMap
  import opened ServiceRefs
  import opened ServiceParams
  import opened ServiceParamsLaws
  import opened ServiceGen

  /** The description joins whichever of the two texts are present with a
      space, and is empty when neither is. */
  lemma DescribeLaws(a: Json, b: Json)
    ensures Truthy(a) && Truthy(b) ==> Describe(a, b) == ToStr(a) + " " + ToStr(b)
    ensures Truthy(a) && !Truthy(b) ==> Describe(a, b) == ToStr(a)
    ensures !Truthy(a) && Truthy(b) ==> Describe(a, b) == ToStr(b)
    ensures !Truthy(a) && !Truthy(b) ==> Describe(a, b) == ""
  {
    if Truthy(a) && Truthy(b) {
      var parts := [ToStr(a)] + [ToStr(b)];
      assert parts == [ToStr(a), ToStr(b)] && parts[1..] == [ToStr(b)];
      assert Join(parts, " ") == ToStr(a) + " " + Join([ToStr(b)], " ");
    }
  }

  // ----- properties of an interface -----

  /** A property entry keeps the property schema's own entries and sets
      `name`, `type` (its type without namespace), `desc` and `required`,
      which holds exactly when the name is in the `required` list; it
      throws when the type does or when `required` is not an array. */
  lemma PropEntryLaws(name: string, propSchema: Json, required: Json)
    requires propSchema.JObj? && DistinctKeys(propSchema.fields)
    ensures PropEntry(name, propSchema, required).Ok? <==>
              ServiceType(propSchema, "").Ok? && required.JArr?
    ensures PropEntry(name, propSchema, required).Ok? ==>
              var e := PropEntry(name, propSchema, required).value;
              Get(e, "name") == JStr(name)
              && Get(e, "type") == JStr(ServiceType(propSchema, "").value)
              && Get(e, "desc") == JStr(Describe(Get(propSchema, "title"), Get(propSchema, "description")))
              && Get(e, "required") == JBool(JStr(name) in required.items)
              && forall k :: k !in ["name", "type", "desc", "required"] ==> Get(e, k) == Get(propSchema, k)
  {
    if PropEntry(name, propSchema, required).Ok? {
      PropLiteral(propSchema, name, ServiceType(propSchema, "").value,
                  Describe(Get(propSchema, "title"), Get(propSchema, "description")),
                  JStr(name) in required.items);
    }
  }

  /** Reading back the object literal of a property entry. */
  lemma PropLiteral(propSchema: Json, name: string, t: string, desc: string, isRequired: bool)
    requires propSchema.JObj? && DistinctKeys(propSchema.fields)
    ensures var e := JObj(Spread(OwnEntries(propSchema), [("name", JStr(name)), ("type", JStr(t)),
                                                         ("desc", JStr(desc)), ("required", JBool(isRequired))]));
            Get(e, "name") == JStr(name) && Get(e, "type") == JStr(t) && Get(e, "desc") == JStr(desc)
            && Get(e, "required") == JBool(isRequired)
            && forall k :: k !in ["name", "type", "desc", "required"] ==> Get(e, k) == Get(propSchema, k)
  {
    assert [] + propSchema.fields == propSchema.fields;
    SpreadAppends([], propSchema.fields);
    var lit := [("name", JStr(name)), ("type", JStr(t)), ("desc", JStr(desc)), ("required", JBool(isRequired))];
    assert "name"[0] != "type"[0] && "name"[0] != "desc"[0] && "type"[0] != "desc"[0];
    assert Keys(lit) == ["name", "type", "desc", "required"];
    SpreadGet(OwnEntries(propSchema), lit);
    assert lit[0].0 == "name" && lit[1].0 == "type" && lit[2].0 == "desc" && lit[3].0 == "required";
  }

  // ----- one interface -----

  /** An entry exists only for a schema that resolves to `type: 'object'`;
      one that resolves to anything else with a type is rejected by name. */
  lemma InterfaceDefObjectOnly(root: Json, depth: nat, typeName: string, schema: Json)
    ensures InterfaceDef(root, depth, typeName, schema).Ok? ==>
              ResolveRefObject(root, schema, depth).Ok?
              && Get(ResolveRefObject(root, schema, depth).value, "type") == JStr("object")
    ensures (ResolveRefObject(root, schema, depth).Ok?
             && ResolveRefObject(root, schema, depth).value != JNull
             && ResolveRefObject(root, schema, depth).value != JUndef
             && Get(ResolveRefObject(root, schema, depth).value, "type") != JStr("object")) ==>
              InterfaceDef(root, depth, typeName, schema)
                == Err(UnsupportedInterfaceType(typeName, Get(ResolveRefObject(root, schema, depth).value, "type")))
  {
  }

  /** The interface's own type is always `any`: the resolved schema has no
      `$ref` left, and `object` is not a type the mapper names. */
  lemma InterfaceTypeAny(root: Json, depth: nat, typeName: string, schema: Json)
    requires InterfaceDef(root, depth, typeName, schema).Ok?
    ensures Get(InterfaceDef(root, depth, typeName, schema).value, "typeName") == JStr(typeName)
    ensures Get(InterfaceDef(root, depth, typeName, schema).value, "type") == JStr("any")
  {
    ResolveRefObjectDone(root, schema, depth);
    var props := ResolveRefObject(root, schema, depth).value;
    assert props.JObj?;
    assert "object" !in NumberTypes && "object" !in DateTypes && "object" !in StringTypes;
    assert ServiceType(props, "") == Ok("any");
    var r := InterfaceDef(root, depth, typeName, schema).value;
    assert r.fields[1] == ("type", JStr("any")) && r.fields[0].0 == "typeName";
    assert Lookup(r.fields, "type") == Lookup(r.fields[1..], "type");
  }

  /** With an object of properties, the list has one entry per property in
      key order, each named by its key and flagged by the `required` list. */
  lemma PropListLaws(props: Json, required: Json)
    requires PropList(props, required).Ok? && Get(props, "properties").JObj?
    ensures var properties := Get(props, "properties");
            var names := Keys(properties.fields);
            var list := PropList(props, required).value;
            list.JArr? && |list.items| == |names|
            && forall j :: 0 <= j < |names| && Get(properties, names[j]).JObj?
                           && DistinctKeys(Get(properties, names[j]).fields) ==>
                 Get(list.items[j], "name") == JStr(names[j])
                 && Get(list.items[j], "required") == JBool(required.JArr? && JStr(names[j]) in required.items)
  {
    var properties := Get(props, "properties");
    var names := Keys(properties.fields);
    MapThrowingLaws(name => PropEntry(name, Get(properties, name), required), names);
    forall j | 0 <= j < |names| && Get(properties, names[j]).JObj? && DistinctKeys(Get(properties, names[j]).fields)
      ensures Get(PropList(props, required).value.items[j], "name") == JStr(names[j])
              && Get(PropList(props, required).value.items[j], "required")
                 == JBool(required.JArr? && JStr(names[j]) in required.items)
    {
      PropEntryLaws(names[j], Get(properties, names[j]), required);
    }
  }

  /** An interface lists its properties as above, with `required`
      defaulting to the empty list, under which no property is required. */
  lemma InterfaceProps(root: Json, depth: nat, typeName: string, schema: Json)
    requires InterfaceDef(root, depth, typeName, schema).Ok?
    ensures var props := ResolveRefObject(root, schema, depth).value;
            var req := Get(props, "required");
            var required := if Truthy(req) then req else JArr([]);
            PropList(props, required).Ok?
            && Get(InterfaceDef(root, depth, typeName, schema).value, "props") == PropList(props, required).value
  {
    var r := InterfaceDef(root, depth, typeName, schema).value;
    assert Lookup(r.fields, "props") == Lookup(r.fields[1..], "props") == Lookup(r.fields[2..], "props");
  }

  // ----- the interface list -----

  /** `genInterface` lists every component schema once, in key order, under
      its own name, and throws without `components`. */
  lemma GenInterfaceLists(root: Json, depth: nat)
    ensures Get(root, "components") == JUndef ==> GenInterface(root, depth) == Err(TypeError)
    ensures GenInterface(root, depth).Ok? ==>
              var defines := Get(Get(root, "components"), "schemas");
              defines.JObj? ==>
                var names := Keys(defines.fields);
                |GenInterface(root, depth).value| == |names|
                && forall j :: 0 <= j < |names| ==>
                     Get(GenInterface(root, depth).value[j], "typeName") == JStr(names[j])
                     && Get(GenInterface(root, depth).value[j], "type") == JStr("any")
  {
    if GenInterface(root, depth).Ok? {
      var defines := Get(Get(root, "components"), "schemas");
      if defines.JObj? {
        var names := Keys(defines.fields);
        MapThrowingLaws(typeName => InterfaceDef(root, depth, typeName, Get(defines, typeName)), names);
        forall j | 0 <= j < |names|
          ensures Get(GenInterface(root, depth).value[j], "typeName") == JStr(names[j])
                  && Get(GenInterface(root, depth).value[j], "type") == JStr("any")
        {
          InterfaceTypeAny(root, depth, names[j], Get(defines, names[j]));
        }
      }
    }
  }

  // ----- one API -----

  /** An API entry keeps the API's own entries, sets `path` to the
      rewritten path, `desc` to the joined summary and description,
      `params`, `body` and `response` to the three template params, and
      `hasHeader` exactly when some parameter is a header or the body
      names a media type. */
  lemma ApiObjectLaws(api: Json, url: string, params: Json, body: Json, response: Json)
    requires api.JObj? && DistinctKeys(api.fields)
    ensures var e := ApiObject(api, url, params, body, response);
            Get(e, "path") == JStr(url)
            && Get(e, "method") == Get(api, "method")
            && Get(e, "desc") == JStr(Describe(Get(api, "summary"), Get(api, "description")))
            && Get(e, "hasHeader") == JBool((Truthy(params) && Truthy(Get(params, "header")))
                                            || (Truthy(body) && Truthy(Get(body, "mediaType"))))
            && Get(e, "params") == params && Get(e, "body") == body && Get(e, "response") == response
            && forall k :: k !in ["path", "method", "desc", "hasHeader", "params", "body", "response"] ==>
                 Get(e, k) == Get(api, k)
  {
    var desc := JStr(Describe(Get(api, "summary"), Get(api, "description")));
    var hasHeader := JBool((Truthy(params) && Truthy(Get(params, "header")))
                           || (Truthy(body) && Truthy(Get(body, "mediaType"))));
    ApiLiteralLaws(api, JStr(url), Get(api, "method"), desc, hasHeader, params, body, response);
  }

  /** The entry literal spread over an API object, for any seven values. */
  lemma ApiLiteralLaws(api: Json, v0: Json, v1: Json, v2: Json, v3: Json, v4: Json, v5: Json, v6: Json)
    requires api.JObj? && DistinctKeys(api.fields)
    ensures var e := JObj(Spread(OwnEntries(api), [("path", v0), ("method", v1), ("desc", v2), ("hasHeader", v3),
                                                   ("params", v4), ("body", v5), ("response", v6)]));
            Get(e, "path") == v0 && Get(e, "method") == v1 && Get(e, "desc") == v2 && Get(e, "hasHeader") == v3
            && Get(e, "params") == v4 && Get(e, "body") == v5 && Get(e, "response") == v6
            && forall k :: k !in ["path", "method", "desc", "hasHeader", "params", "body", "response"] ==>
                 Get(e, k) == Get(api, k)
  {
    assert [] + api.fields == api.fields;
    SpreadAppends([], api.fields);
    var lit := [("path", v0), ("method", v1), ("desc", v2), ("hasHeader", v3),
                ("params", v4), ("body", v5), ("response", v6)];
    ApiObjectKeys(v0, v1, v2, v3, v4, v5, v6);
    SpreadGet(OwnEntries(api), lit);
    assert lit[0].0 == "path" && lit[1].0 == "method" && lit[2].0 == "desc" && lit[3].0 == "hasHeader"
           && lit[4].0 == "params" && lit[5].0 == "body" && lit[6].0 == "response";
  }

  /** The seven keys the entry literal sets, all different. */
  lemma ApiObjectKeys(v0: Json, v1: Json, v2: Json, v3: Json, v4: Json, v5: Json, v6: Json)
    ensures var lit := [("path", v0), ("method", v1), ("desc", v2), ("hasHeader", v3),
                        ("params", v4), ("body", v5), ("response", v6)];
            Keys(lit) == ["path", "method", "desc", "hasHeader", "params", "body", "response"]
            && DistinctKeys(lit)
  {
    var lit := [("path", v0), ("method", v1), ("desc", v2), ("hasHeader", v3),
                ("params", v4), ("body", v5), ("response", v6)];
    forall i, j | 0 <= i < j < |lit| ensures lit[i].0 != lit[j].0 {
      assert lit[i].0[0] != lit[j].0[0] || lit[i].0[2] != lit[j].0[2];
    }
  }

  /** An API entry exists only for a string path, and is the object above
      built from the rewritten path and the three template params. */
  lemma ApiEntryLaws(root: Json, depth: nat, namespace: string, api: Json)
    ensures ApiEntry(root, depth, namespace, api).Ok? ==>
              Get(api, "path").JStr?
              && TemplateParams(root, depth, namespace, Get(api, "parameters")).Ok?
              && BodyParam(root, depth, namespace, Get(api, "requestBody")).Ok?
              && ResponseParam(root, depth, namespace, Get(api, "responses")).Ok?
              && ApiEntry(root, depth, namespace, api).value ==
                   ApiObject(api, RewritePathParams(Get(api, "path").s),
                             TemplateParams(root, depth, namespace, Get(api, "parameters")).value,
                             BodyParam(root, depth, namespace, Get(api, "requestBody")).value,
                             ResponseParam(root, depth, namespace, Get(api, "responses")).value)
  {
  }

  /** The header test on the params: it holds exactly when some parameter
      resolves to the header location. */
  lemma HasHeaderParams(root: Json, depth: nat, namespace: string, ps: Json)
    requires TemplateParams(root, depth, namespace, ps).Ok?
    ensures var params := TemplateParams(root, depth, namespace, ps).value;
            (Truthy(params) && Truthy(Get(params, "header"))) <==>
              (ps.JArr? && ps.items != []
               && exists i :: 0 <= i < |ResolveAll(root, depth, ps.items).value|
                              && Get(ResolveAll(root, depth, ps.items).value[i], "in") == JStr("header"))
  {
    if ps.JArr? && ps.items != [] {
      TemplateParamsGroups(root, depth, namespace, ps.items);
      assert Locations[1] == "header";
      GroupNonEmpty(root, depth, namespace, ps.items, "header");
    }
  }

  // ----- file names -----

  lemma {:induction false} ToCamelCaseNonEmpty(s: string)
    requires s != []
    ensures ToCamelCase(s) != []
  {
  }

  /** `camelCase: true` camel-cases the name, `'lower'` also lowers its
      first letter and so fails only on an empty name, and any other
      setting gives the hyphen case, which holds no capital letter. */
  lemma FinalFileNameLaws(camelCase: Json, fileName: string)
    ensures camelCase == JBool(true) ==> FinalFileName(camelCase, fileName) == Ok(ToCamelCase(fileName))
    ensures camelCase == JStr("lower") ==>
              (FinalFileName(camelCase, fileName).Ok? <==> fileName != [])
    ensures camelCase == JStr("lower") && fileName != [] ==>
              var r := FinalFileName(camelCase, fileName).value;
              r != [] && !IsUpper(r[0]) && r[1..] == ToCamelCase(fileName)[1..]
    ensures camelCase != JBool(true) && camelCase != JStr("lower") ==>
              FinalFileName(camelCase, fileName).Ok?
              && forall i :: 0 <= i < |FinalFileName(camelCase, fileName).value| ==>
                   !IsUpper(FinalFileName(camelCase, fileName).value[i])
  {
    if fileName != [] {
      ToCamelCaseNonEmpty(fileName);
    }
  }

  // ----- the service files -----

  /** One tag's file is named from the tag and lists one entry per API
      of the tag. */
  lemma TagFileLaws(root: Json, depth: nat, config: ServiceConfig, apiData: Json, tag: string)
    requires TagFile(root, depth, config, apiData, tag).Ok?
    ensures var file := TagFile(root, depth, config, apiData, tag).value;
            Get(apiData, tag).JArr?
            && FinalFileName(config.camelCase, tag + "." + config.genType) == Ok(file.fileName)
            && |file.list| == |Get(apiData, tag).items|
  {
  }

  /** `genService` writes one file per tag of the API data, in key order;
      the `'lower'` naming never fails here, since the name always has the
      `.` before the type. */
  lemma GenServiceFiles(root: Json, depth: nat, config: ServiceConfig, apiData: Json)
    requires apiData.JObj? && GenService(root, depth, config, apiData).Ok?
    ensures var tags := Keys(apiData.fields);
            var files := GenService(root, depth, config, apiData).value;
            |files| == |tags|
            && forall j :: 0 <= j < |tags| ==>
                 FinalFileName(config.camelCase, tags[j] + "." + config.genType) == Ok(files[j].fileName)
                 && Get(apiData, tags[j]).JArr? && |files[j].list| == |Get(apiData, tags[j]).items|
  {
    var tags := Keys(apiData.fields);
    MapThrowingLaws(tag => TagFile(root, depth, config, apiData, tag), tags);
    forall j | 0 <= j < |tags|
      ensures FinalFileName(config.camelCase, tags[j] + "." + config.genType)
                == Ok(GenService(root, depth, config, apiData).value[j].fileName)
              && Get(apiData, tags[j]).JArr? && |GenService(root, depth, config, apiData).value[j].list| == |Get(apiData, tags[j]).items|
    {
      TagFileLaws(root, depth, config, apiData, tags[j]);
    }
  }

  lemma LowerNamingTotal(tag: string, genType: string)
    ensures FinalFileName(JStr("lower"), tag + "." + genType).Ok?
  {
    FinalFileNameLaws(JStr("lower"), tag + "." + genType);
    assert (tag + "." + genType)[|tag|] == '.';
  }

  /** Interfaces come first and only for `ts` output: their failure stops
      the generation before any service file. */
  lemma GenFileOrder(root: Json, depth: nat, config: ServiceConfig, apiData: Json)
    ensures config.genType != "ts" ==>
              GenFile(root, depth, config, apiData) ==
                (match GenService(root, depth, config, apiData)
                 case Ok(files) => Ok(Generated(None, files))
                 case Err(e) => Err(e))
    ensures config.genType == "ts" && GenInterface(root, depth).Err? ==>
              GenFile(root, depth, config, apiData) == Err(GenInterface(root, depth).error)
    ensures GenFile(root, depth, config, apiData).Ok? && config.genType == "ts" ==>
              GenFile(root, depth, config, apiData).value.interfaces == Some(GenInterface(root, depth).value)
  {
  }

  /** lib/index.ts:86 constructs the generator with two of its three
      arguments, so `openAPIData` is undefined. For `ts` output `genFile`
      then throws on reading `components` before it writes a single file. */
  lemma GenFileWithoutDocument(depth: nat, config: ServiceConfig, apiData: Json)
    requires config.genType == "ts"
    ensures GenFile(JUndef, depth, config, apiData) == Err(TypeError)
  {
  }
}
