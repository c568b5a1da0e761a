/** The template parameters lib/ServiceGenerator.ts builds for each API:
    `getParamsTemplateParam`, `getBodyTemplateParam` and
    `getResponseTemplateParam`. `depth` bounds the nested
    `resolveRefObject` calls, as in ServiceRefs. */
module ServiceParams {
  import opened JsonModel
  import opened Text
  import opened Parse
  import opened TypeMap
  import opened ServiceRefs

  /** The locations `getParamsTemplateParam` groups by, in its order. */
  const Locations: seq<string> := ["query", "header", "path", "cookie"]

  /** `parameters.map(p => this.resolveRefObject(p))` */
  function ResolveAll(root: Json, depth: nat, ps: seq<Json>): Result<seq<Json>> {
    MapThrowing(p => ResolveRefObject(root, p, depth), ps)
  }

  /** `.filter((p) => p.in === where)`; reading `in` of null or undefined
      throws. */
  function AtLocation(ps: seq<Json>, where: string): Result<seq<Json>> {
    if ps == [] then Ok([])
    else
      var loc :- Read(ps[0], "in");
      var rest :- AtLocation(ps[1..], where);
      Ok((if StrictEq(loc, JStr(where)) then [ps[0]] else []) + rest)
  }

  /** `{...p, type: this.getType(p.schema, namespace)}` */
  function Typed(p: Json, namespace: string): Result<Json> {
    var t :- ServiceType(Get(p, "schema"), namespace);
    Ok(JObj(Put(OwnEntries(p), "type", JStr(t))))
  }

  function TypedAll(ps: seq<Json>, namespace: string): Result<seq<Json>> {
    MapThrowing(p => Typed(p, namespace), ps)
  }

  /** The list one location gets: resolve, filter, add the type. */
  function Group(root: Json, depth: nat, namespace: string, ps: seq<Json>, where: string): Result<seq<Json>> {
    var resolved :- ResolveAll(root, depth, ps);
    var here :- AtLocation(resolved, where);
    TypedAll(here, namespace)
  }

  /** The locations from the `i`-th on, added to `acc` when not empty. */
  function GroupsFrom(root: Json, depth: nat, namespace: string, ps: seq<Json>, i: nat, acc: seq<(string, Json)>): Result<Json>
    requires i <= |Locations|
    decreases |Locations| - i
  {
    if i == |Locations| then Ok(JObj(acc))
    else
      var group :- Group(root, depth, namespace, ps, Locations[i]);
      GroupsFrom(root, depth, namespace, ps, i + 1,
                 if group != [] then Put(acc, Locations[i], JArr(group)) else acc)
  }

  /** `getParamsTemplateParam(parameters)`: `undefined` for an absent or
      empty list, otherwise one entry per location that has parameters. */
  function TemplateParams(root: Json, depth: nat, namespace: string, parameters: Json): Result<Json> {
    if !Truthy(parameters) || !Truthy(Get(parameters, "length")) then Ok(JUndef)
    else if !parameters.JArr? then Err(TypeError)
    else GroupsFrom(root, depth, namespace, parameters.items, 0, [])
  }

  /** The loop over the four locations that fills `templateParams`. */
  method FillTemplateParams(root: Json, depth: nat, namespace: string, parameters: Json) returns (r: Result<Json>)
    ensures r == TemplateParams(root, depth, namespace, parameters)
  {
    if !Truthy(parameters) || !Truthy(Get(parameters, "length")) {
      return Ok(JUndef);
    }
    if !parameters.JArr? {
      return Err(TypeError);
    }
    r := FillGroups(root, depth, namespace, parameters.items);
  }

  /** `for (const location of Locations)`, pushing each non-empty group. */
  method FillGroups(root: Json, depth: nat, namespace: string, ps: seq<Json>) returns (r: Result<Json>)
    ensures r == GroupsFrom(root, depth, namespace, ps, 0, [])
  {
    var templateParams: seq<(string, Json)> := [];
    for i := 0 to |Locations|
      invariant GroupsFrom(root, depth, namespace, ps, i, templateParams) == GroupsFrom(root, depth, namespace, ps, 0, [])
    {
      var group := Group(root, depth, namespace, ps, Locations[i]);
      GroupsFromStep(root, depth, namespace, ps, i, templateParams, group);
      if group.Err? {
        return Err(group.error);
      }
      if group.value != [] {
        templateParams := Put(templateParams, Locations[i], JArr(group.value));
      }
    }
    return Ok(JObj(templateParams));
  }

  /** One step of the loop over the locations. */
  lemma GroupsFromStep(root: Json, depth: nat, namespace: string, ps: seq<Json>, i: nat, acc: seq<(string, Json)>, group: Result<seq<Json>>)
    requires i < |Locations| && group == Group(root, depth, namespace, ps, Locations[i])
    ensures GroupsFrom(root, depth, namespace, ps, i, acc)
            == if group.Err? then Err(group.error)
               else GroupsFrom(root, depth, namespace, ps, i + 1, if group.value != [] then Put(acc, Locations[i], JArr(group.value)) else acc)
  {
  }

  /** What both the body and the response give once `content` is an
      object: its first media type and the type of that entry's schema. */
  function MediaParam(content: Json, namespace: string): Result<Json> {
    var keys :- ObjectKeys(content);
    var mediaType := if keys == [] then JUndef else JStr(keys[0]);
    var schema :- Read(Get(content, ToStr(mediaType)), "schema");
    var t :- ServiceType(schema, namespace);
    Ok(JObj([("mediaType", mediaType), ("type", JStr(t))]))
  }

  /** `getBodyTemplateParam(requestBody)`: `undefined` without a body or
      without a `content` object. */
  function BodyParam(root: Json, depth: nat, namespace: string, requestBody: Json): Result<Json> {
    var body :- ResolveRefObject(root, requestBody, depth);
    if !Truthy(body) then Ok(JUndef)
    else
      var content := Get(body, "content");
      if !IsObjectType(content) then Ok(JUndef)
      else MediaParam(content, namespace)
  }

  // The response template param used when there is no content to describe.
  const DefaultResponse: Json := JObj([("mediaType", JStr("*/*")), ("type", JStr("any"))])

  /** `getResponseTemplateParam(responses)`: the `default` response, else
      `'200'`; reading either from null or undefined throws. */
  function ResponseParam(root: Json, depth: nat, namespace: string, responses: Json): Result<Json> {
    var preferred :- Read(responses, "default");
    ResponseOf(root, depth, namespace, if Truthy(preferred) then preferred else Get(responses, "200"))
  }

  /** The response template param of the chosen response: the default one
      without a response or without a `content` object. */
  function ResponseOf(root: Json, depth: nat, namespace: string, chosen: Json): Result<Json> {
    var response :- ResolveRefObject(root, chosen, depth);
    if !Truthy(response) then Ok(DefaultResponse)
    else
      var content := Get(response, "content");
      if !IsObjectType(content) then Ok(DefaultResponse)
      else MediaParam(content, namespace)
  }
}
