/** `fixRequestBody` of lib/util/fixSwagger.ts:50-96: Swagger 2.0 allows one
    body parameter, so several are merged into one `RequestBodyDTO` object for
    POST and PUT, and turned into query parameters for every other method. */
module FixBody {
  import opened JsonModel
  import opened Text
  import Parse

  const DtoName: string := "RequestBodyDTO"

  /** `p.in === 'body'` */
  predicate IsBody(p: Json) { Get(p, "in") == JStr("body") }

  /** `parameters.filter(p => p.in === 'body')` */
  function BodyParams(ps: seq<Json>): (r: seq<Json>)
    ensures forall i :: 0 <= i < |r| ==> IsBody(r[i]) && r[i] in ps
  {
    if ps == [] then [] else (if IsBody(ps[0]) then [ps[0]] else []) + BodyParams(ps[1..])
  }

  /** `parameters.filter(p => p.in !== 'body')` */
  function OtherParams(ps: seq<Json>): (r: seq<Json>)
    ensures forall i :: 0 <= i < |r| ==> !IsBody(r[i]) && r[i] in ps
  {
    if ps == [] then [] else (if IsBody(ps[0]) then [] else [ps[0]]) + OtherParams(ps[1..])
  }

  /** The two filters split the list: nothing is lost or duplicated. */
  lemma {:induction false} FiltersPartition(ps: seq<Json>)
    ensures multiset(BodyParams(ps)) + multiset(OtherParams(ps)) == multiset(ps)
  {
    if ps != [] {
      FiltersPartition(ps[1..]);
      assert ps == [ps[0]] + ps[1..];
    }
  }

  /** `bodyParams.filter(p => p.required).map(p => p.name)` */
  function RequiredNames(bodies: seq<Json>): (r: seq<Json>)
    ensures |r| <= |bodies|
    ensures forall x :: x in r <==> exists i :: 0 <= i < |bodies| && Truthy(Get(bodies[i], "required")) && Get(bodies[i], "name") == x
  {
    if bodies == [] then []
    else (if Truthy(Get(bodies[0], "required")) then [Get(bodies[0], "name")] else []) + RequiredNames(bodies[1..])
  }

  /** The own properties `...p.schema` copies: an object's fields, an array's
      or a string's indices (not its `length`), and nothing for other values. */
  function SchemaFields(schema: Json): seq<(string, Json)> {
    match schema
    case JObj(fs) => fs
    case _ => Parse.OwnEntries(schema)
  }

  /** `{ description: p.description, ...p.schema }` */
  function PropertyOf(p: Json): seq<(string, Json)> {
    Spread([("description", Get(p, "description"))], SchemaFields(Get(p, "schema")))
  }

  /** The property key `p.name` becomes. */
  function NameOf(p: Json): string { ToStr(Get(p, "name")) }

  /** `properties[p.name] = { description: p.description, ...p.schema }`,
      one assignment per body param, in order. */
  function Entries(bodies: seq<Json>): (r: seq<(string, Json)>)
    ensures |r| == |bodies|
    ensures forall i :: 0 <= i < |bodies| ==> r[i] == (NameOf(bodies[i]), JObj(PropertyOf(bodies[i])))
  {
    seq(|bodies|, i requires 0 <= i < |bodies| => (NameOf(bodies[i]), JObj(PropertyOf(bodies[i]))))
  }

  /** The `properties` object the assignments build. */
  function Properties(bodies: seq<Json>): seq<(string, Json)> {
    Spread([], Entries(bodies))
  }

  /** Each body param's name is a property holding that param's description
      and schema, unless a later param of the same name replaced it. */
  lemma PropertiesHoldParams(bodies: seq<Json>, i: nat)
    requires i < |bodies|
    requires forall j :: i < j < |bodies| ==> NameOf(bodies[j]) != NameOf(bodies[i])
    ensures Lookup(Properties(bodies), NameOf(bodies[i])) == Some(JObj(PropertyOf(bodies[i])))
  {
    SpreadLast([], Entries(bodies), i);
  }

  /** Nothing but the body params' names becomes a property. */
  lemma PropertiesOnlyParams(bodies: seq<Json>, k: string)
    requires forall i :: 0 <= i < |bodies| ==> NameOf(bodies[i]) != k
    ensures Lookup(Properties(bodies), k) == None
  {
    SpreadLaws([], Entries(bodies));
    assert k !in Keys(Entries(bodies));
  }

  /** The merged parameter that replaces the body params. */
  function Dto(bodies: seq<Json>): (r: Json)
    ensures IsBody(r)
  {
    JObj([("in", JStr("body")), ("name", JStr(DtoName)), ("description", JStr(DtoName)),
          ("required", JBool(true)),
          ("schema", JObj([("type", JStr("object")), ("required", JArr(RequiredNames(bodies))),
                           ("properties", JObj(Properties(bodies)))]))])
  }

  /** `p.in = 'query'` on a body param. */
  function Requeried(p: Json): (r: Json)
    ensures r.JObj? && Get(r, "in") == JStr("query")
    ensures p.JObj? ==> forall k :: k != "in" ==> Get(r, k) == Get(p, k)
  {
    match p
    case JObj(fs) => PutLaws(fs, "in", JStr("query")); JObj(Put(fs, "in", JStr("query")))
    case _ => JObj([("in", JStr("query"))])
  }

  /** The parameter list after the `default` branch: body params are now
      query params, all others are untouched. */
  function RequeryAll(ps: seq<Json>, n: nat): (r: seq<Json>)
    requires n <= |ps|
    ensures |r| == |ps|
    ensures forall i :: 0 <= i < |ps| ==> r[i] == if i < n && IsBody(ps[i]) then Requeried(ps[i]) else ps[i]
  {
    seq(|ps|, i requires 0 <= i < |ps| => if i < n && IsBody(ps[i]) then Requeried(ps[i]) else ps[i])
  }

  predicate IsPostOrPut(verb: string) {
    ToUpper(verb) == "POST" || ToUpper(verb) == "PUT"
  }

  /** The effect on one operation `pathItemObject[method]`: the operation
      after the fix, or the exception. Reading `parameters` of null throws;
      `filter` throws on a `parameters` that is not an array and on a null
      entry (reading its `in`). */
  function FixOperation(verb: string, op: Json): Result<Json> {
    var params :- Read(op, "parameters");
    if !Truthy(params) then Ok(op)
    else if !params.JArr? || exists i :: 0 <= i < |params.items| && params.items[i] in {JNull, JUndef} then Err(TypeError)
    else
      match NewParams(verb, params.items)
      case None => Ok(op)
      case Some(ps) => Ok(Set(op, "parameters", JArr(ps)))
  }

  /** The list the `switch` leaves in `parameters`, or `None` when it leaves
      `parameters` unassigned and its entries untouched. */
  function NewParams(verb: string, ps: seq<Json>): Option<seq<Json>> {
    var bodies := BodyParams(ps);
    if IsPostOrPut(verb) then
      if |bodies| > 1 then Some(OtherParams(ps) + [Dto(bodies)]) else None
    else Some(RequeryAll(ps, |ps|))
  }

  /** The operation callback, loop for loop (lib/util/fixSwagger.ts:55-92). */
  method FixParameters(verb: string, op: Json) returns (r: Result<Json>)
    ensures r == FixOperation(verb, op)
  {
    if op == JNull || op == JUndef {
      return Err(TypeError);
    }
    var params := Get(op, "parameters");
    if !Truthy(params) {
      return Ok(op);
    }
    if !params.JArr? {
      return Err(TypeError);
    }
    var ps := params.items;
    var i := 0;
    while i < |ps|
      invariant 0 <= i <= |ps|
      invariant forall j :: 0 <= j < i ==> ps[j] != JNull && ps[j] != JUndef
    {
      if ps[i] == JNull || ps[i] == JUndef {
        return Err(TypeError);
      }
      i := i + 1;
    }
    var bodies := BodyParams(ps);
    if IsPostOrPut(verb) {
      if |bodies| > 1 {
        var properties := BuildProperties(bodies);
        var dto := JObj([("in", JStr("body")), ("name", JStr(DtoName)), ("description", JStr(DtoName)),
                         ("required", JBool(true)),
                         ("schema", JObj([("type", JStr("object")), ("required", JArr(RequiredNames(bodies))),
                                          ("properties", JObj(properties))]))]);
        return Ok(Set(op, "parameters", JArr(OtherParams(ps) + [dto])));
      }
      return Ok(op);
    }
    var out := RequeryBodies(ps);
    return Ok(Set(op, "parameters", JArr(out)));
  }

  /** `bodyParams.forEach(p => { properties[p.name] = … })` */
  method BuildProperties(bodies: seq<Json>) returns (properties: seq<(string, Json)>)
    ensures properties == Properties(bodies)
  {
    ghost var es := Entries(bodies);
    properties := [];
    var n := 0;
    while n < |bodies|
      invariant 0 <= n <= |bodies|
      invariant Spread(properties, es[n..]) == Spread([], es)
    {
      var p := bodies[n];
      SpreadStep([], es, properties, n);
      properties := Put(properties, NameOf(p), JObj(PropertyOf(p)));
      n := n + 1;
    }
    assert es[n..] == [];
  }

  /** `bodyParams.forEach(p => { p.in = 'query' })` */
  method RequeryBodies(ps: seq<Json>) returns (out: seq<Json>)
    ensures out == RequeryAll(ps, |ps|)
  {
    out := ps;
    var i := 0;
    while i < |ps|
      invariant 0 <= i <= |ps|
      invariant out == RequeryAll(ps, i)
    {
      if IsBody(ps[i]) {
        out := out[i := Requeried(ps[i])];
      }
      i := i + 1;
    }
  }

  // ----- the walk over `paths` and their methods -----

  /** The operations of one path item from the `i`-th method key on. */
  function FixMethodsFrom(item: Json, methods: seq<string>, i: nat): (Json, Option<Error>)
    requires i <= |methods|
    decreases |methods| - i
  {
    if i == |methods| then (item, None)
    else
      match FixOperation(methods[i], Get(item, methods[i]))
      case Err(e) => (item, Some(e))
      case Ok(op) => FixMethodsFrom(Set(item, methods[i], op), methods, i + 1)
  }

  function FixPathItem(item: Json): (Json, Option<Error>) {
    match ObjectKeys(item)
    case Err(e) => (item, Some(e))
    case Ok(methods) => FixMethodsFrom(item, methods, 0)
  }

  function FixPathsFrom(paths: Json, keys: seq<string>, i: nat): (Json, Option<Error>)
    requires i <= |keys|
    decreases |keys| - i
  {
    if i == |keys| then (paths, None)
    else
      var (item, err) := FixPathItem(Get(paths, keys[i]));
      if err.Some? then (Set(paths, keys[i], item), err)
      else FixPathsFrom(Set(paths, keys[i], item), keys, i + 1)
  }

  /** The document and the exception `fixRequestBody` leaves; operations
      fixed before a throw stay fixed. */
  function FixRequestBodySpec(data: Json): (Json, Option<Error>) {
    match Read(data, "paths")
    case Err(e) => (data, Some(e))
    case Ok(paths) =>
      match ObjectKeys(paths)
      case Err(e) => (data, Some(e))
      case Ok(keys) =>
        var (paths', err) := FixPathsFrom(paths, keys, 0);
        (Set(data, "paths", paths'), err)
  }

  /** lib/util/fixSwagger.ts:50-96 */
  method FixRequestBody(data: Json) returns (out: Json, err: Option<Error>)
    ensures (out, err) == FixRequestBodySpec(data)
  {
    if data == JNull || data == JUndef {
      return data, Some(TypeError);
    }
    var paths := Get(data, "paths");
    var keys := ObjectKeys(paths);
    if keys.Err? {
      return data, Some(keys.error);
    }
    var i := 0;
    while i < |keys.value|
      invariant 0 <= i <= |keys.value|
      invariant FixPathsFrom(Get(data, "paths"), keys.value, 0) == FixPathsFrom(paths, keys.value, i)
    {
      var path := keys.value[i];
      var item, e := FixPathOperations(Get(paths, path));
      paths := Set(paths, path, item);
      if e.Some? {
        return Set(data, "paths", paths), e;
      }
      i := i + 1;
    }
    return Set(data, "paths", paths), None;
  }

  /** `Object.keys(pathItemObject).forEach(method => …)` */
  method FixPathOperations(item0: Json) returns (item: Json, err: Option<Error>)
    ensures (item, err) == FixPathItem(item0)
  {
    item := item0;
    var methods := ObjectKeys(item);
    if methods.Err? {
      return item, Some(methods.error);
    }
    var j := 0;
    while j < |methods.value|
      invariant 0 <= j <= |methods.value|
      invariant FixPathItem(item0) == FixMethodsFrom(item, methods.value, j)
    {
      var verb := methods.value[j];
      var op := FixParameters(verb, Get(item, verb));
      if op.Err? {
        return item, Some(op.error);
      }
      item := Set(item, verb, op.value);
      j := j + 1;
    }
    return item, None;
  }
}
