/** What lib/cli/genSdk.ts promises about the records it builds: the
    parameters in order with the body entries after them, one response
    entry per key, one route per truthy operation of every path without
    `$`, and a document that passes the checks only with an OpenAPI 3.0
    version. */
module GenSdkLaws {
  import opened JsonModel
  import opened Text
  import opened Parse
  import opened TypeMap
  import opened TypeMapLaws
  import opened TagRemap
  import opened Gen
  import opened GenLaws
  import opened GenSdk
  import opened ParseLaws

  // ----- parameters -----

  /** The type mapper never answers `integer` or `array`: numeric types
      become `number`, arrays end in `]`, and enum unions are empty or
      begin with a quote. */
  lemma GetTypeNotRaw(schema: Json)
    ensures GetType(schema).Ok? ==> GetType(schema).value != "integer" && GetType(schema).value != "array"
  {
    assert "number"[0] != 'i' && "Date"[0] != 'i' && "string"[0] != 'i' && "boolean"[0] != 'i' && "any"[0] != 'i';
    assert "number"[0] != 'a' && "Date"[0] != 'a' && "string"[0] != 'a' && "boolean"[0] != 'a' && "any" != "array";
    match TypeTag(schema)
    case JStr(t) =>
      if t == "enum" {
        var values := Get(schema, "enum");
        if values.JArr? {
          if values.items == [] {
            UnionAppend([], JNull);
          } else {
            UnionQuoted(values.items);
          }
        }
      } else if t == "array" && t !in NumberTypes {
        var inner := GetType(Items(schema));
        if inner.Ok? {
          var s := inner.value + "[]";
          assert s[|s| - 1] == ']';
        }
      }
    case _ =>
  }

  /** A parameter fails only when it is null or undefined or its schema's
      type cannot be mapped; otherwise both names are its `name`, its type
      is mapped, and `required` is kept, or `false` when falsy. */
  lemma ParamOfLaws(p: Json)
    ensures ParamOf(p).Ok? <==> p != JNull && p != JUndef && GetType(Get(p, "schema")).Ok?
    ensures ParamOf(p).Ok? ==>
              var x := ParamOf(p).value;
              x.name == Get(p, "name") && x.paramName == x.name
              && x.paramType == GetType(Get(p, "schema")).value && x.location == Get(p, "in")
              && x.required.Some? && (Truthy(x.required.value) <==> Truthy(Get(p, "required")))
  {
  }

  /** No parameters give none, a truthy non-array throws, and an array
      gives one record per entry in its order. */
  lemma RegularParamsLaws(parameters: Json)
    ensures !Truthy(parameters) ==> RegularParams(parameters) == Ok([])
    ensures Truthy(parameters) && !parameters.JArr? ==> RegularParams(parameters) == Err(TypeError)
    ensures parameters.JArr? ==>
              var ps := parameters.items;
              (RegularParams(parameters).Ok? <==> forall i :: 0 <= i < |ps| ==> ParamOf(ps[i]).Ok?)
              && (RegularParams(parameters).Ok? ==>
                    |RegularParams(parameters).value| == |ps|
                    && forall i :: 0 <= i < |ps| ==> RegularParams(parameters).value[i] == ParamOf(ps[i]).value)
  {
    if parameters.JArr? {
      MapThrowingLaws(ParamOf, parameters.items);
    }
  }

  /** No body schema adds nothing; an object schema adds one entry per
      property, named after it, none when it has no properties; any other
      schema adds the single `$body` entry with the schema's type. Every
      body entry is located in the body and has no `required`. */
  lemma BodyParamsLaws(bodySchema: Json)
    ensures !Truthy(bodySchema) ==> BodyParams(bodySchema) == Ok([])
    ensures Truthy(bodySchema) && StrictEq(Get(bodySchema, "type"), JStr("object")) ==>
              var properties := Get(bodySchema, "properties");
              var keys := if Truthy(properties) then ForInKeys(properties) else [];
              (!Truthy(properties) ==> BodyParams(bodySchema) == Ok([]))
              && (BodyParams(bodySchema).Ok? ==>
                    |BodyParams(bodySchema).value| == |keys|
                    && forall i :: 0 <= i < |keys| ==>
                         BodyParams(bodySchema).value[i].name == JStr(keys[i])
                         && BodyParams(bodySchema).value[i].paramName == JStr(keys[i]))
    ensures Truthy(bodySchema) && !StrictEq(Get(bodySchema, "type"), JStr("object")) ==>
              (BodyParams(bodySchema).Ok? <==> GetType(bodySchema).Ok?)
              && (BodyParams(bodySchema).Ok? ==>
                    BodyParams(bodySchema).value == [Param(JStr("$body"), JStr("$body"), GetType(bodySchema).value, JStr("body"), None)])
    ensures BodyParams(bodySchema).Ok? ==>
              forall i :: 0 <= i < |BodyParams(bodySchema).value| ==>
                BodyParams(bodySchema).value[i].location == JStr("body") && BodyParams(bodySchema).value[i].required.None?
  {
    if Truthy(bodySchema) && StrictEq(Get(bodySchema, "type"), JStr("object")) {
      var properties := Get(bodySchema, "properties");
      var postData := if Truthy(properties) then properties else JObj([]);
      var f := k => PropertyParam(postData, k);
      MapThrowingLaws(f, ForInKeys(postData));
    }
  }

  /** `getParams` gives the regular parameters first, in order, then the
      body entries. */
  lemma ParamsOfLaws(parameters: Json, requestBody: Json)
    ensures ParamsOf(parameters, requestBody).Ok? ==>
              var r := ParamsOf(parameters, requestBody).value;
              var regular := RegularParams(parameters);
              regular.Ok? && |regular.value| <= |r| && r[..|regular.value|] == regular.value
              && forall i :: |regular.value| <= i < |r| ==> r[i].location == JStr("body") && r[i].required.None?
  {
    var regular := RegularParams(parameters);
    var bodySchema := BodySchema(requestBody);
    if regular.Ok? && bodySchema.Ok? {
      BodyParamsLaws(bodySchema.value);
      var body := BodyParams(bodySchema.value);
      if body.Ok? {
        BodyAfterRegular(regular.value, body.value);
      }
    }
  }

  lemma BodyAfterRegular(regular: seq<Param>, body: seq<Param>)
    requires forall i :: 0 <= i < |body| ==> body[i].location == JStr("body") && body[i].required.None?
    ensures (regular + body)[..|regular|] == regular
    ensures forall i :: |regular| <= i < |regular + body| ==>
              (regular + body)[i].location == JStr("body") && (regular + body)[i].required.None?
  {
    assert forall i :: |regular| <= i < |regular + body| ==> (regular + body)[i] == body[i - |regular|];
  }

  /** Without request content there are no body entries. */
  lemma ParamsWithoutContent(parameters: Json, requestBody: Json)
    requires !Truthy(Get(requestBody, "content"))
    ensures ParamsOf(parameters, requestBody) == RegularParams(parameters)
  {
    assert BodySchema(requestBody) == Ok(Get(requestBody, "content"));
    if RegularParams(parameters).Ok? {
      assert RegularParams(parameters).value + [] == RegularParams(parameters).value;
    }
  }

  /** Every type `getParams` gives is already what the fix-up of
      lib/gen.ts would make it, so that fix-up changes nothing on the
      routes of the SDK command. */
  lemma ParamsOfFixed(parameters: Json, requestBody: Json)
    ensures ParamsOf(parameters, requestBody).Ok? ==>
              FixedParams(ParamsOf(parameters, requestBody).value) == ParamsOf(parameters, requestBody).value
  {
    var regular := RegularParams(parameters);
    var bodySchema := BodySchema(requestBody);
    if regular.Ok? && bodySchema.Ok? && BodyParams(bodySchema.value).Ok? {
      var r := ParamsOf(parameters, requestBody).value;
      var reg, body := regular.value, BodyParams(bodySchema.value).value;
      assert r == reg + body;
      forall j | 0 <= j < |reg| ensures reg[j].paramType != "integer" && reg[j].paramType != "array" {
        RegularTypeNotRaw(parameters, reg, j);
      }
      forall j | 0 <= j < |body| ensures body[j].paramType != "integer" && body[j].paramType != "array" {
        BodyTypeNotRaw(bodySchema.value, body, j);
      }
      forall i | 0 <= i < |r| ensures FixParam(r[i]) == r[i] {
        ParamTypeNotRaw(reg, body, i);
        FixParamTypeLaws(r[i].paramType);
      }
    }
  }

  lemma ParamTypeNotRaw(regular: seq<Param>, body: seq<Param>, i: nat)
    requires (forall j :: 0 <= j < |regular| ==> regular[j].paramType != "integer" && regular[j].paramType != "array")
    requires (forall j :: 0 <= j < |body| ==> body[j].paramType != "integer" && body[j].paramType != "array")
    requires i < |regular + body|
    ensures (regular + body)[i].paramType != "integer" && (regular + body)[i].paramType != "array"
  {
    if i >= |regular| {
      assert (regular + body)[i] == body[i - |regular|];
    }
  }

  lemma RegularTypeNotRaw(parameters: Json, regular: seq<Param>, i: nat)
    requires RegularParams(parameters) == Ok(regular) && i < |regular|
    ensures regular[i].paramType != "integer" && regular[i].paramType != "array"
  {
    var list := if Truthy(parameters) then parameters else JArr([]);
    MapThrowingAt(ParamOf, list.items, i);
    GetTypeNotRaw(Get(list.items[i], "schema"));
  }

  lemma BodyTypeNotRaw(bodySchema: Json, body: seq<Param>, j: nat)
    requires BodyParams(bodySchema) == Ok(body) && j < |body|
    ensures body[j].paramType != "integer" && body[j].paramType != "array"
  {
    if StrictEq(Get(bodySchema, "type"), JStr("object")) {
      var properties := Get(bodySchema, "properties");
      var postData := if Truthy(properties) then properties else JObj([]);
      var keys := ForInKeys(postData);
      MapThrowingAt(k => PropertyParam(postData, k), keys, j);
      GetTypeNotRaw(Get(postData, keys[j]));
    } else {
      GetTypeNotRaw(bodySchema);
    }
  }

  /** One `string` body entry per response key, named after it, in key
      order; no responses give no entries. */
  lemma ResponseParamsLaws(responses: Json)
    ensures responses == JNull || responses == JUndef ==> ResponseParams(responses) == []
    ensures responses.JObj? ==>
              var keys := Keys(responses.fields);
              forall i :: 0 <= i < |keys| ==>
                ResponseParams(responses)[i] == Param(JStr(keys[i]), JStr(keys[i]), "string", JStr("body"), None)
  {
  }

  // ----- one route -----

  /** An operation without a `tags` value throws; the first tag names the
      class unless it is falsy, and an empty tag list gives `Default`. */
  lemma ClassNameLaws(op: Json)
    ensures Get(op, "tags") == JNull || Get(op, "tags") == JUndef ==> ClassName(op) == Err(TypeError)
    ensures Get(op, "tags").JArr? && Get(op, "tags").items != [] && Truthy(Get(op, "tags").items[0]) ==>
              ClassName(op) == Ok(Get(op, "tags").items[0])
    ensures Get(op, "tags") == JArr([]) ==> ClassName(op) == Ok(JStr("Default"))
    ensures ClassName(op).Ok? ==> Truthy(ClassName(op).value)
  {
    ParseIndexOfNatToString(0);
    assert NatToString(0) == "0";
  }

  /** The content type is the first media type of the request content, or
      empty without content. */
  lemma ContentTypeLaws(requestBody: Json)
    ensures !Truthy(Get(requestBody, "content")) ==> ContentType(requestBody) == ""
    ensures var content := Get(requestBody, "content");
            content.JObj? && content.fields != [] ==> ContentType(requestBody) == content.fields[0].0
  {
    var content := Get(requestBody, "content");
    if content.JObj? && content.fields != [] {
      assert Keys(content.fields)[0] == content.fields[0].0;
    }
  }

  /** A route is built unless its class name or its parameters throw; it
      keeps the method, the URL and the operation's id, summary and
      description, and gets its responses and content type. */
  lemma RouteOfLaws(url: string, verb: string, op: Json)
    ensures var requestBody := if Truthy(Get(op, "requestBody")) then Get(op, "requestBody") else JObj([]);
            (RouteOf(url, verb, op).Ok? <==> ClassName(op).Ok? && ParamsOf(Get(op, "parameters"), requestBody).Ok?)
            && (RouteOf(url, verb, op).Ok? ==>
                  var r := RouteOf(url, verb, op).value;
                  r.verb == verb && r.url == url && r.className == ClassName(op).value
                  && r.functionName == Get(op, "operationId") && r.name == Get(op, "summary")
                  && r.description == Get(op, "description")
                  && r.params == ParamsOf(Get(op, "parameters"), requestBody).value
                  && r.response == ResponseParams(Get(op, "responses"))
                  && r.contentType == ContentType(requestBody))
  {
  }

  // ----- the route loops -----

  /** The methods of a path item whose operation is truthy, in order. */
  function TruthyVerbs(item: Json, verbs: seq<string>): seq<string> {
    if verbs == [] then []
    else (if Truthy(Get(item, verbs[0])) then [verbs[0]] else []) + TruthyVerbs(item, verbs[1..])
  }

  /** The method loop of a path item appends to `apis` one record per
      truthy operation, in method order, or throws the first record's
      exception. */
  lemma {:induction false} ItemRoutesLaws(url: string, item: Json, verbs: seq<string>, i: nat, apis: seq<Route>)
    requires i <= |verbs|
    ensures var m := MapThrowing(v => RouteOf(url, v, Get(item, v)), TruthyVerbs(item, verbs[i..]));
            ItemRoutes(url, item, verbs, i, apis) == (if m.Ok? then Ok(apis + m.value) else Err(m.error))
    decreases |verbs| - i
  {
    var g := v => RouteOf(url, v, Get(item, v));
    if i == |verbs| {
      assert verbs[i..] == [];
      assert apis + [] == apis;
    } else {
      var v := verbs[i];
      var rest := TruthyVerbs(item, verbs[i + 1..]);
      TruthyVerbsStep(item, verbs, i);
      if Truthy(Get(item, v)) {
        var route := g(v);
        ItemRoutesPushes(url, item, verbs, i, apis, route);
        MapThrowingCons(g, v, rest);
        if route.Ok? {
          ItemRoutesLaws(url, item, verbs, i + 1, apis + [route.value]);
          AppendRoute(apis, route.value, MapThrowing(g, rest));
        }
      } else {
        ItemRoutesSkips(url, item, verbs, i, apis);
        assert [] + rest == rest;
        ItemRoutesLaws(url, item, verbs, i + 1, apis);
      }
    }
  }

  /** The truthy methods from the `i`-th on: the `i`-th, when truthy, then
      those after it. */
  lemma TruthyVerbsStep(item: Json, verbs: seq<string>, i: nat)
    requires i < |verbs|
    ensures TruthyVerbs(item, verbs[i..])
            == (if Truthy(Get(item, verbs[i])) then [verbs[i]] else []) + TruthyVerbs(item, verbs[i + 1..])
  {
    assert verbs[i..][0] == verbs[i] && verbs[i..][1..] == verbs[i + 1..];
  }

  lemma AppendRoute(apis: seq<Route>, route: Route, tail: Result<seq<Route>>)
    ensures tail.Ok? ==> apis + [route] + tail.value == apis + ([route] + tail.value)
  {
  }

  lemma {:induction false} TruthyVerbsMembers(item: Json, verbs: seq<string>)
    ensures forall v :: v in TruthyVerbs(item, verbs) <==> v in verbs && Truthy(Get(item, v))
  {
    if verbs != [] {
      TruthyVerbsMembers(item, verbs[1..]);
      assert forall v :: v in verbs <==> v == verbs[0] || v in verbs[1..];
    }
  }

  /** Every record of one path item carries the item's URL, one of its
      truthy methods, a truthy class name and types the fix-up of
      lib/gen.ts leaves as they are. */
  lemma ItemRoutesShape(url: string, item: Json)
    ensures var r := ItemRoutes(url, item, ForInKeys(item), 0, []);
            r.Ok? ==> forall route :: route in r.value ==>
                        route.url == url && route.verb in ForInKeys(item) && Truthy(Get(item, route.verb))
                        && Truthy(route.className) && FixedParams(route.params) == route.params
  {
    var verbs := ForInKeys(item);
    var g := v => RouteOf(url, v, Get(item, v));
    var tv := TruthyVerbs(item, verbs);
    ItemRoutesLaws(url, item, verbs, 0, []);
    assert verbs[0..] == verbs;
    TruthyVerbsMembers(item, verbs);
    var m := MapThrowing(g, tv);
    if m.Ok? {
      assert [] + m.value == m.value;
      forall route | route in m.value
        ensures route.url == url && route.verb in verbs && Truthy(Get(item, route.verb))
                && Truthy(route.className) && FixedParams(route.params) == route.params
      {
        var v := MapThrowingSource(g, tv, route);
        RouteShape(url, v, Get(item, v), g(v));
      }
    }
  }

  /** One record: the URL and method it was built for, a truthy class
      name and fixed parameter types. */
  lemma RouteShape(url: string, verb: string, op: Json, r: Result<Route>)
    requires r == RouteOf(url, verb, op) && r.Ok?
    ensures r.value.url == url && r.value.verb == verb && Truthy(r.value.className)
            && FixedParams(r.value.params) == r.value.params
  {
    RouteOfLaws(url, verb, op);
    ClassNameLaws(op);
    ParamsOfFixed(Get(op, "parameters"), if Truthy(Get(op, "requestBody")) then Get(op, "requestBody") else JObj([]));
  }

  /** The paths without `$`, in order. */
  function DollarFree(keys: seq<string>): seq<string> {
    if keys == [] then [] else (if '$' in keys[0] then [] else [keys[0]]) + DollarFree(keys[1..])
  }

  /** The records of the paths `keys`, path after path: the reference the
      route loop is proved against. */
  function AllItemRoutes(paths: Json, keys: seq<string>): Result<seq<Route>> {
    if keys == [] then Ok([])
    else
      var item := Get(paths, keys[0]);
      var head :- ItemRoutes(RewritePathParams(keys[0]), item, ForInKeys(item), 0, []);
      var tail :- AllItemRoutes(paths, keys[1..]);
      Ok(head + tail)
  }

  /** Appending to `apis` is the same as appending to nothing and then
      prefixing `apis`. */
  lemma ItemRoutesPrefix(url: string, item: Json, apis: seq<Route>)
    ensures var r := ItemRoutes(url, item, ForInKeys(item), 0, []);
            ItemRoutes(url, item, ForInKeys(item), 0, apis) == (if r.Ok? then Ok(apis + r.value) else Err(r.error))
  {
    ItemRoutesLaws(url, item, ForInKeys(item), 0, apis);
    ItemRoutesLaws(url, item, ForInKeys(item), 0, []);
    var m := MapThrowing(v => RouteOf(url, v, Get(item, v)), TruthyVerbs(item, ForInKeys(item)[0..]));
    if m.Ok? {
      assert [] + m.value == m.value;
    }
  }

  /** The path loop appends to `apis` the records of every path without
      `$`, in key order, or throws the first exception. */
  lemma {:induction false} PathRoutesLaws(paths: Json, keys: seq<string>, i: nat, apis: seq<Route>)
    requires i <= |keys|
    ensures var m := AllItemRoutes(paths, DollarFree(keys[i..]));
            PathRoutes(paths, keys, i, apis) == (if m.Ok? then Ok(apis + m.value) else Err(m.error))
    decreases |keys| - i
  {
    if i == |keys| {
      assert keys[i..] == [];
      assert apis + [] == apis;
    } else if '$' in keys[i] {
      PathSkipped(paths, keys, i, apis);
      PathRoutesLaws(paths, keys, i + 1, apis);
    } else {
      var item := Get(paths, keys[i]);
      var head := ItemRoutes(RewritePathParams(keys[i]), item, ForInKeys(item), 0, []);
      PathTaken(paths, keys, i, apis);
      if head.Ok? {
        PathRoutesLaws(paths, keys, i + 1, apis + head.value);
        AppendThree(apis, head.value, AllItemRoutes(paths, DollarFree(keys[i + 1..])));
      }
    }
  }

  lemma AppendThree(apis: seq<Route>, head: seq<Route>, tail: Result<seq<Route>>)
    ensures tail.Ok? ==> apis + head + tail.value == apis + (head + tail.value)
  {
  }

  /** A path containing `$` adds nothing. */
  lemma PathSkipped(paths: Json, keys: seq<string>, i: nat, apis: seq<Route>)
    requires i < |keys| && '$' in keys[i]
    ensures PathRoutes(paths, keys, i, apis) == PathRoutes(paths, keys, i + 1, apis)
    ensures DollarFree(keys[i..]) == DollarFree(keys[i + 1..])
  {
    assert keys[i..][0] == keys[i] && keys[i..][1..] == keys[i + 1..];
    assert DollarFree(keys[i..]) == [] + DollarFree(keys[i + 1..]);
  }

  /** Any other path adds the records of its item. */
  lemma PathTaken(paths: Json, keys: seq<string>, i: nat, apis: seq<Route>)
    requires i < |keys| && '$' !in keys[i]
    ensures var item := Get(paths, keys[i]);
            var head := ItemRoutes(RewritePathParams(keys[i]), item, ForInKeys(item), 0, []);
            var tail := AllItemRoutes(paths, DollarFree(keys[i + 1..]));
            PathRoutes(paths, keys, i, apis) == (if head.Ok? then PathRoutes(paths, keys, i + 1, apis + head.value) else Err(head.error))
            && AllItemRoutes(paths, DollarFree(keys[i..]))
               == (if head.Ok? then (if tail.Ok? then Ok(head.value + tail.value) else Err(tail.error)) else Err(head.error))
  {
    var k := keys[i];
    assert keys[i..][0] == k && keys[i..][1..] == keys[i + 1..];
    assert DollarFree(keys[i..]) == [k] + DollarFree(keys[i + 1..]);
    assert ([k] + DollarFree(keys[i + 1..]))[1..] == DollarFree(keys[i + 1..]);
    ItemRoutesPrefix(RewritePathParams(k), Get(paths, k), apis);
  }

  lemma {:induction false} DollarFreeMembers(keys: seq<string>)
    ensures forall k :: k in DollarFree(keys) <==> k in keys && '$' !in k
  {
    if keys != [] {
      DollarFreeMembers(keys[1..]);
      assert forall k :: k in keys <==> k == keys[0] || k in keys[1..];
    }
  }

  /** Every record of the paths `keys` carries the rewritten URL of one of
      them and types the fix-up leaves as they are. */
  lemma {:induction false} AllItemRoutesShape(paths: Json, keys: seq<string>)
    ensures AllItemRoutes(paths, keys).Ok? ==>
              forall route :: route in AllItemRoutes(paths, keys).value ==>
                (exists k :: k in keys && route.url == RewritePathParams(k)) && FixedParams(route.params) == route.params
  {
    if keys != [] {
      var item := Get(paths, keys[0]);
      var head := ItemRoutes(RewritePathParams(keys[0]), item, ForInKeys(item), 0, []);
      var tail := AllItemRoutes(paths, keys[1..]);
      if head.Ok? && tail.Ok? {
        ItemRoutesShape(RewritePathParams(keys[0]), item);
        AllItemRoutesShape(paths, keys[1..]);
        assert AllItemRoutes(paths, keys) == Ok(head.value + tail.value);
        forall route | route in head.value + tail.value
          ensures (exists k :: k in keys && route.url == RewritePathParams(k)) && FixedParams(route.params) == route.params
        {
          if route in head.value {
            assert keys[0] in keys;
          } else {
            var k :| k in keys[1..] && route.url == RewritePathParams(k);
            assert k in keys;
          }
        }
      }
    }
  }

  /** The routes of `paths`: `Object.keys` of null or undefined throws,
      paths containing `$` give nothing, and every record carries the
      rewritten URL of a path without `$` and parameters the fix-up of
      lib/gen.ts leaves as they are, so its template is the record with
      its path parameters. */
  lemma RoutesLaws(paths: Json)
    ensures paths == JNull || paths == JUndef ==> Routes(paths) == Err(TypeError)
    ensures paths.JObj? && (forall k :: k in Keys(paths.fields) ==> '$' in k) ==> Routes(paths) == Ok([])
    ensures Routes(paths).Ok? ==>
              forall route :: route in Routes(paths).value ==>
                (exists k :: k in ObjectKeys(paths).value && '$' !in k && route.url == RewritePathParams(k))
                && Template(route) == TemplateRoute(route, PathParams(route.params))
  {
    if paths != JNull && paths != JUndef {
      var keys := ObjectKeys(paths).value;
      PathRoutesLaws(paths, keys, 0, []);
      assert keys[0..] == keys;
      DollarFreeMembers(keys);
      var m := AllItemRoutes(paths, DollarFree(keys));
      if DollarFree(keys) != [] {
        assert DollarFree(keys)[0] in DollarFree(keys);
      }
      if m.Ok? {
        assert [] + m.value == m.value;
        AllItemRoutesShape(paths, DollarFree(keys));
        forall route | route in m.value ensures Template(route) == TemplateRoute(route, PathParams(route.params)) {
          assert route.(params := route.params) == route;
        }
      }
    }
  }

  // ----- the document -----

  /** A node without a truthy `$ref` is returned as the same node with
      its children resolved, so dropping the result loses nothing; a node
      with a `#`-rooted `$ref` keeps its place, since only a copy of the
      target is returned. */
  lemma ResolvedInPlaceLaws(root: Json, node: Json)
    ensures node != JNull && node != JUndef && !Truthy(Get(node, "$ref")) ==>
              ResolvedInPlace(root, node) == ResolveRef(root, node)
    ensures Get(node, "$ref").JStr? && Truthy(Get(node, "$ref")) && RootedPath(Get(node, "$ref").s).Some? ==>
              ResolvedInPlace(root, node) == node
    ensures !IsObjectType(node) ==> ResolvedInPlace(root, node) == node
  {
  }

  /** The statement `resolveRef(data, data.paths)` changes at most
      `paths`, and only as the resolution changes it in place; without a
      document it throws. */
  lemma ResolvePathsLaws(doc: Json)
    ensures doc == JNull || doc == JUndef ==> ResolvePaths(doc) == Err(TypeError)
    ensures doc.JObj? ==>
              ResolvePaths(doc).Ok?
              && Get(ResolvePaths(doc).value, "paths") == ResolvedInPlace(doc, Get(doc, "paths"))
              && forall k :: k != "paths" ==> Get(ResolvePaths(doc).value, k) == Get(doc, k)
  {
    if doc.JObj? {
      SetGet(doc, "paths", ResolvedInPlace(doc, Get(doc, "paths")));
    }
  }

  /** The segments of the ref `#/paths/a`. */
  lemma SplitPathsA()
    ensures Split("#/paths/a", '/') == ["#", "paths", "a"]
  {
    var tail := Split("paths/a", '/');
    assert tail == ["paths", "a"] by {
      assert "paths/a" == "paths" + ['/'] + "a";
      SplitAt("paths", "a", '/');
      SplitNone("paths", '/');
      SplitNone("a", '/');
    }
    assert "#/paths/a" == "#" + ['/'] + "paths/a";
    SplitAt("#", "paths/a", '/');
    SplitNone("#", '/');
    assert ["#"] + tail == ["#", "paths", "a"];
  }

  /** Each child of `paths` is resolved against the document as it was
      before the call: a ref `#/paths/a` under `paths` copies the path `a`
      unresolved, where the source, walking the live document, copies it
      with the refs inside it already resolved. */
  lemma ResolvePathsOriginalRoot(doc: Json)
    requires doc.JObj?
    requires var paths := Get(doc, "paths");
             paths.JObj? && DistinctKeys(paths.fields) && !Truthy(Get(paths, "$ref"))
             && Get(paths, "b") == JObj([("$ref", JStr("#/paths/a"))])
             && Get(paths, "a").JObj? && DistinctKeys(Get(paths, "a").fields)
    ensures ResolvePaths(doc).Ok?
    ensures Get(Get(ResolvePaths(doc).value, "paths"), "b") == Get(Get(doc, "paths"), "a")
  {
    var paths := Get(doc, "paths");
    var a := Get(paths, "a");
    var b := Get(paths, "b");
    ResolvePathsLaws(doc);
    SplitPathsA();
    assert Get(b, "$ref") == JStr("#/paths/a");
    assert WalkPath(a, []) == Ok(a);
    assert WalkPath(paths, ["a"]) == Ok(a);
    assert WalkPath(doc, ["paths", "a"]) == Ok(a);
    ResolveRefTarget(doc, b, ["paths", "a"], a);
    OwnEntriesObject(a);
    ResolveRefGet(doc, paths, "b");
  }

  /** Only a string `openapi` that begins with `3.0.` passes, and the
      document passes unchanged; a falsy one is a version error and any
      other non-string a type error. */
  lemma CheckVersionLaws(doc: Json)
    ensures CheckVersion(doc).Ok? <==>
              doc != JNull && doc != JUndef && Get(doc, "openapi").JStr? && "3.0." <= Get(doc, "openapi").s
    ensures CheckVersion(doc).Ok? ==> CheckVersion(doc).value == doc
    ensures doc != JNull && doc != JUndef && !Truthy(Get(doc, "openapi")) ==> CheckVersion(doc) == Err(BadVersion)
  {
    var v := Get(doc, "openapi");
    if v.JStr? && "3.0." <= v.s {
      assert v.s != [];
    }
  }

  /** `3.1.0` is refused here, though the `3.`-prefix check of
      lib/index.ts accepts it. */
  lemma CheckVersionRejects31()
    ensures CheckVersion(JObj([("openapi", JStr("3.1.0"))])) == Err(BadVersion)
    ensures CheckVersion(JObj([("openapi", JStr("3.0.2"))])).Ok?
  {
    var doc := JObj([("openapi", JStr("3.1.0"))]);
    assert Get(doc, "openapi") == JStr("3.1.0");
    assert "3.1.0"[2] != "3.0."[2];
    assert !("3.0." <= "3.1.0");
    var ok := JObj([("openapi", JStr("3.0.2"))]);
    assert Get(ok, "openapi") == JStr("3.0.2");
    assert "3.0." <= "3.0.2";
  }

  /** A document without `paths` or `info` is refused before anything is
      converted; a document that is not Swagger 2.0 is only checked, and
      an accepted document carries a `3.0.` version. */
  lemma SdkDocumentLaws(data: Json, convert: Json -> Result<Json>)
    ensures !Truthy(data) || !Truthy(Get(data, "paths")) || !Truthy(Get(data, "info")) ==>
              SdkDocument(data, convert) == Err(BadFormat)
    ensures Truthy(data) && Truthy(Get(data, "paths")) && Truthy(Get(data, "info"))
            && !StrictEq(Get(data, "swagger"), JStr("2.0")) ==>
              SdkDocument(data, convert) == CheckVersion(data)
    ensures SdkDocument(data, convert).Ok? ==>
              var version := Get(SdkDocument(data, convert).value, "openapi");
              version.JStr? && "3.0." <= version.s
  {
    var doc := if StrictEq(Get(data, "swagger"), JStr("2.0")) then FromSwagger2(data, convert) else Ok(data);
    if doc.Ok? {
      CheckVersionLaws(doc.value);
    }
  }

  /** The converter's exception stops a Swagger 2.0 document. */
  lemma ConverterErrorStops(data: Json, convert: Json -> Result<Json>)
    requires data.JObj? && Truthy(Get(data, "paths")) && Truthy(Get(data, "info"))
    requires Get(data, "swagger") == JStr("2.0")
    requires convert(ResolvePaths(data).value).Err?
    ensures SdkDocument(data, convert) == Err(convert(ResolvePaths(data).value).error)
  {
  }

  /** Whatever stops the document stops the command before any file is
      named. */
  lemma SdkFromUrlErrors(data: Json, convert: Json -> Result<Json>, config: Json)
    ensures SdkDocument(data, convert).Err? ==> SdkFromUrl(data, convert, config) == Err(SdkDocument(data, convert).error)
    ensures SdkDocument(data, convert).Ok? && Routes(Get(SdkDocument(data, convert).value, "paths")).Err? ==>
              SdkFromUrl(data, convert, config) == Err(Routes(Get(SdkDocument(data, convert).value, "paths")).error)
  {
  }
}
