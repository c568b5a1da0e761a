/** `fixOpenAPI` of lib/util/fixOpenAPI.ts: every operation gets tags whose
    names are valid type names, then repeated `operationId`s get numeric
    suffixes. */
module FixOpenApi {
  import opened JsonModel
  import opened Text

  const DefaultTag: string := "Default"
  const UnknownTag: string := "UNKNOWN"

  // ----- fixTag -----

  /** What the tag pass carries from one operation to the next: the value of
      `data.tags` (normally the array of TagObjects it finds and pushes into)
      and `finalNameMap`, old tag name to new. */
  datatype TagState = TagState(tags: Json, renamed: map<string, string>)

  /** `tags.find(t => t.name === tagName)` from index `i` on: the first index
      whose entry's `name` is `tagName`; reading `name` of a null or
      undefined entry throws. */
  function FindTag(items: seq<Json>, tagName: Json, i: nat): (r: Result<Option<nat>>)
    requires i <= |items|
    ensures r.Ok? && r.value.Some? ==>
              i <= r.value.value < |items| && StrictEq(Get(items[r.value.value], "name"), tagName)
    decreases |items| - i
  {
    if i == |items| then Ok(None)
    else if items[i] == JNull || items[i] == JUndef then Err(TypeError)
    else if StrictEq(Get(items[i], "name"), tagName) then Ok(Some(i))
    else FindTag(items, tagName, i + 1)
  }

  /** The TagObject pushed for a tag name no TagObject has. */
  function NewTagObject(tagName: Json): Json {
    JObj([("name", tagName), ("description", tagName)])
  }

  /** The tag list and the index of the TagObject the callback works on:
      the one `find` returns, or a new one pushed at the end. */
  function TagEntry(items: seq<Json>, tagName: Json): (r: Result<(seq<Json>, nat)>)
    ensures r.Ok? ==> r.value.1 < |r.value.0|
  {
    var found :- FindTag(items, tagName, 0);
    if found.Some? && Truthy(items[found.value]) then Ok((items, found.value))
    else Ok((items + [NewTagObject(tagName)], |items|))
  }

  /** `testTypeNameValid(description) ? description.replace(/ /g, '') :
      'UNKNOWN'` where `description` already has its spaces removed. */
  function NewTagName(description: string): string {
    var d := RemoveSpaces(description);
    if IsValidTypeName(d) then RemoveSpaces(d) else UnknownTag
  }

  /** The map callback on one tag name: the new name from `finalNameMap`;
      otherwise the TagObject is found or pushed, and an invalid name is
      replaced (the TagObject's description takes the old name) and
      remembered, while a valid name falls off the end of the callback and
      gives `undefined`. */
  function MapTag(st: TagState, tagName: Json): Result<(TagState, Json)> {
    var key := ToStr(tagName);
    if key in st.renamed && st.renamed[key] != "" then Ok((st, JStr(st.renamed[key])))
    else if !st.tags.JArr? then Err(TypeError)
    else
      var entry :- TagEntry(st.tags.items, tagName);
      var items := entry.0;
      var t := items[entry.1];
      var oldName := Get(t, "name");
      if IsValidTypeName(ToStr(oldName)) then Ok((TagState(JArr(items), st.renamed), JUndef))
      else
        var description := Get(t, "description");
        if !description.JStr? then Err(TypeError)
        else
          var newName := NewTagName(description.s);
          var t' := Set(Set(t, "description", oldName), "name", JStr(newName));
          Ok((TagState(JArr(items[entry.1 := t']), st.renamed[ToStr(oldName) := newName]), JStr(newName)))
  }

  /** `operation.tags.map(…)` on the names from index `i` on. */
  function MapTagsFrom(st: TagState, names: seq<Json>, i: nat): (r: Result<(TagState, seq<Json>)>)
    requires i <= |names|
    ensures r.Ok? ==> |r.value.1| == |names| - i
    decreases |names| - i
  {
    if i == |names| then Ok((st, []))
    else
      var first :- MapTag(st, names[i]);
      var rest :- MapTagsFrom(first.0, names, i + 1);
      Ok((rest.0, [first.1] + rest.1))
  }

  /** The tag names the map runs over: the operation's own when they form a
      non-empty array, otherwise `['Default']`. */
  function TagNames(op: Json): seq<Json> {
    var tags := Get(op, "tags");
    if IsNonEmptyArray(tags) then tags.items else [JStr(DefaultTag)]
  }

  /** One operation. Reading `tags` of null throws; on a primitive the
      assignment of `['Default']` does not stick, so `map` is called on
      `undefined` and throws. */
  function FixOpTags(st: TagState, op: Json): Result<(TagState, Json)> {
    if op == JNull || op == JUndef then Err(TypeError)
    else if !IsNonEmptyArray(Get(op, "tags")) && !op.JObj? && !op.JArr? then Err(TypeError)
    else
      var mapped :- MapTagsFrom(st, TagNames(op), 0);
      Ok((mapped.0, Set(op, "tags", JArr(mapped.1))))
  }

  function FixTagMethodsFrom(st: TagState, item: Json, methods: seq<string>, i: nat): (r: Result<(TagState, Json)>)
    requires i <= |methods|
    decreases |methods| - i
  {
    if i == |methods| then Ok((st, item))
    else
      var fixed :- FixOpTags(st, Get(item, methods[i]));
      FixTagMethodsFrom(fixed.0, Set(item, methods[i], fixed.1), methods, i + 1)
  }

  function FixTagItem(st: TagState, item: Json): Result<(TagState, Json)> {
    var methods :- ObjectKeys(item);
    FixTagMethodsFrom(st, item, methods, 0)
  }

  function FixTagPathsFrom(st: TagState, paths: Json, keys: seq<string>, i: nat): (r: Result<(TagState, Json)>)
    requires i <= |keys|
    decreases |keys| - i
  {
    if i == |keys| then Ok((st, paths))
    else
      var fixed :- FixTagItem(st, Get(paths, keys[i]));
      FixTagPathsFrom(fixed.0, Set(paths, keys[i], fixed.1), keys, i + 1)
  }

  /** The document after `fixTag`, or the exception it throws. */
  function FixTagSpec(data: Json): Result<Json> {
    if data == JNull || data == JUndef then Err(TypeError)
    else
      var keys :- ObjectKeys(Get(data, "paths"));
      var fixed :- FixTagPathsFrom(TagState(Get(data, "tags"), map[]), Get(data, "paths"), keys, 0);
      var d := Set(data, "paths", fixed.1);
      Ok(if Get(data, "tags").JArr? then Set(d, "tags", fixed.0.tags) else d)
  }

  // ----- fixOperationId -----

  /** One operation: the first `operationId` of its kind is kept and
      counted; a later one gets `_` and the count so far, which then rises. */
  function NextId(counts: map<string, nat>, op: Json): (r: Result<(map<string, nat>, Json)>) {
    if op == JNull || op == JUndef then Err(TypeError)
    else
      var name := ToStr(Get(op, "operationId"));
      if name in counts && counts[name] != 0 then
        Ok((counts[name := counts[name] + 1], Set(op, "operationId", JStr(name + "_" + NatToString(counts[name])))))
      else Ok((counts[name := 1], op))
  }

  function FixIdMethodsFrom(counts: map<string, nat>, item: Json, methods: seq<string>, i: nat): (r: Result<(map<string, nat>, Json)>)
    requires i <= |methods|
    decreases |methods| - i
  {
    if i == |methods| then Ok((counts, item))
    else
      var next :- NextId(counts, Get(item, methods[i]));
      FixIdMethodsFrom(next.0, Set(item, methods[i], next.1), methods, i + 1)
  }

  function FixIdItem(counts: map<string, nat>, item: Json): Result<(map<string, nat>, Json)> {
    var methods :- ObjectKeys(item);
    FixIdMethodsFrom(counts, item, methods, 0)
  }

  function FixIdPathsFrom(counts: map<string, nat>, paths: Json, keys: seq<string>, i: nat): (r: Result<(map<string, nat>, Json)>)
    requires i <= |keys|
    decreases |keys| - i
  {
    if i == |keys| then Ok((counts, paths))
    else
      var fixed :- FixIdItem(counts, Get(paths, keys[i]));
      FixIdPathsFrom(fixed.0, Set(paths, keys[i], fixed.1), keys, i + 1)
  }

  /** The document after `fixOperationId`, or the exception it throws. */
  function FixOperationIdSpec(data: Json): Result<Json> {
    var paths :- Read(data, "paths");
    var keys :- ObjectKeys(paths);
    var fixed :- FixIdPathsFrom(map[], paths, keys, 0);
    Ok(Set(data, "paths", fixed.1))
  }

  /** `fixOpenAPI`: tags first, then operation ids. */
  function FixOpenApiSpec(data: Json): Result<Json> {
    var tagged :- FixTagSpec(data);
    FixOperationIdSpec(tagged)
  }

  // ----- the passes, loop for loop -----

  /** lib/util/fixOpenAPI.ts:9-12 */
  method FixOpenApi(data: Json) returns (r: Result<Json>)
    ensures r == FixOpenApiSpec(data)
  {
    var tagged := FixTag(data);
    if tagged.Err? {
      return tagged;
    }
    r := FixOperationId(tagged.value);
  }

  /** lib/util/fixOpenAPI.ts:14-50 */
  method FixTag(data: Json) returns (r: Result<Json>)
    ensures r == FixTagSpec(data)
  {
    if data == JNull || data == JUndef {
      return Err(TypeError);
    }
    var paths := Get(data, "paths");
    var keys := ObjectKeys(paths);
    if keys.Err? {
      return Err(keys.error);
    }
    var fixed := FixTagPaths(TagState(Get(data, "tags"), map[]), paths, keys.value);
    if fixed.Err? {
      return Err(fixed.error);
    }
    var d := Set(data, "paths", fixed.value.1);
    if Get(data, "tags").JArr? {
      d := Set(d, "tags", fixed.value.0.tags);
    }
    return Ok(d);
  }

  /** `Object.keys(paths).forEach(pathKey => …)` of the tag pass. */
  method FixTagPaths(st0: TagState, paths0: Json, keys: seq<string>) returns (r: Result<(TagState, Json)>)
    ensures r == FixTagPathsFrom(st0, paths0, keys, 0)
  {
    var st := st0;
    var paths := paths0;
    var i := 0;
    while i < |keys|
      invariant 0 <= i <= |keys|
      invariant FixTagPathsFrom(st0, paths0, keys, 0) == FixTagPathsFrom(st, paths, keys, i)
    {
      var fixed := FixTagPathItem(st, Get(paths, keys[i]));
      if fixed.Err? {
        return Err(fixed.error);
      }
      st := fixed.value.0;
      paths := Set(paths, keys[i], fixed.value.1);
      i := i + 1;
    }
    return Ok((st, paths));
  }

  /** `Object.keys(pathItemObject).forEach(method => …)` of the tag pass. */
  method FixTagPathItem(st0: TagState, item0: Json) returns (r: Result<(TagState, Json)>)
    ensures r == FixTagItem(st0, item0)
  {
    var methods := ObjectKeys(item0);
    if methods.Err? {
      return Err(methods.error);
    }
    r := FixTagMethods(st0, item0, methods.value);
  }

  /** The loop over the methods of one path item. */
  method FixTagMethods(st0: TagState, item0: Json, methods: seq<string>) returns (r: Result<(TagState, Json)>)
    ensures r == FixTagMethodsFrom(st0, item0, methods, 0)
  {
    var st := st0;
    var item := item0;
    var j := 0;
    while j < |methods|
      invariant 0 <= j <= |methods|
      invariant FixTagMethodsFrom(st0, item0, methods, 0) == FixTagMethodsFrom(st, item, methods, j)
    {
      var verb := methods[j];
      var fixed := FixOperationTags(st, Get(item, verb));
      if fixed.Err? {
        return Err(fixed.error);
      }
      st := fixed.value.0;
      item := Set(item, verb, fixed.value.1);
      j := j + 1;
    }
    return Ok((st, item));
  }

  /** Prefix the mapped names so far onto the rest of the map's outcome. */
  function Glued(done: seq<Json>, rest: Result<(TagState, seq<Json>)>): Result<(TagState, seq<Json>)> {
    match rest
    case Err(e) => Err(e)
    case Ok((st, xs)) => Ok((st, done + xs))
  }

  /** lib/util/fixOpenAPI.ts:23-47 for one operation. */
  method FixOperationTags(st0: TagState, op: Json) returns (r: Result<(TagState, Json)>)
    ensures r == FixOpTags(st0, op)
  {
    if op == JNull || op == JUndef {
      return Err(TypeError);
    }
    var names := Get(op, "tags");
    if !IsNonEmptyArray(names) {
      if !op.JObj? && !op.JArr? {
        return Err(TypeError);
      }
      names := JArr([JStr(DefaultTag)]);
    }
    assert names.items == TagNames(op);
    var mapped := MapTags(st0, names.items);
    if mapped.Err? {
      return Err(mapped.error);
    }
    return Ok((mapped.value.0, Set(op, "tags", JArr(mapped.value.1))));
  }

  /** `operation.tags.map(…)`, one tag name after the other. */
  method MapTags(st0: TagState, names: seq<Json>) returns (r: Result<(TagState, seq<Json>)>)
    ensures r == MapTagsFrom(st0, names, 0)
  {
    var st := st0;
    var mapped: seq<Json> := [];
    var i := 0;
    GluedNothing(MapTagsFrom(st0, names, 0));
    while i < |names|
      invariant 0 <= i <= |names|
      invariant Glued(mapped, MapTagsFrom(st, names, i)) == MapTagsFrom(st0, names, 0)
    {
      var one := MapTag(st, names[i]);
      if one.Err? {
        return Err(one.error);
      }
      GluedStep(mapped, st, names, i);
      st := one.value.0;
      mapped := mapped + [one.value.1];
      i := i + 1;
    }
    assert MapTagsFrom(st, names, i) == Ok((st, []));
    assert mapped + [] == mapped;
    return Ok((st, mapped));
  }

  lemma GluedNothing(rest: Result<(TagState, seq<Json>)>)
    ensures Glued([], rest) == rest
  {
    match rest
    case Err(_) =>
    case Ok((st, xs)) => assert [] + xs == xs;
  }

  lemma GluedStep(done: seq<Json>, st: TagState, names: seq<Json>, i: nat)
    requires i < |names| && MapTag(st, names[i]).Ok?
    ensures Glued(done, MapTagsFrom(st, names, i))
         == Glued(done + [MapTag(st, names[i]).value.1], MapTagsFrom(MapTag(st, names[i]).value.0, names, i + 1))
  {
    var x := MapTag(st, names[i]).value.1;
    match MapTagsFrom(MapTag(st, names[i]).value.0, names, i + 1)
    case Err(_) =>
    case Ok((s, xs)) => assert done + ([x] + xs) == (done + [x]) + xs;
  }

  /** lib/util/fixOpenAPI.ts:52-69 */
  method FixOperationId(data: Json) returns (r: Result<Json>)
    ensures r == FixOperationIdSpec(data)
  {
    if data == JNull || data == JUndef {
      return Err(TypeError);
    }
    var paths := Get(data, "paths");
    var keys := ObjectKeys(paths);
    if keys.Err? {
      return Err(keys.error);
    }
    var fixed := FixIdPaths(map[], paths, keys.value);
    if fixed.Err? {
      return Err(fixed.error);
    }
    return Ok(Set(data, "paths", fixed.value.1));
  }

  /** `Object.keys(paths).forEach(pathKey => …)` of the id pass. */
  method FixIdPaths(counts0: map<string, nat>, paths0: Json, keys: seq<string>) returns (r: Result<(map<string, nat>, Json)>)
    ensures r == FixIdPathsFrom(counts0, paths0, keys, 0)
  {
    var counts := counts0;
    var paths := paths0;
    var i := 0;
    while i < |keys|
      invariant 0 <= i <= |keys|
      invariant FixIdPathsFrom(counts0, paths0, keys, 0) == FixIdPathsFrom(counts, paths, keys, i)
    {
      var fixed := FixIdPathItem(counts, Get(paths, keys[i]));
      if fixed.Err? {
        return Err(fixed.error);
      }
      counts := fixed.value.0;
      paths := Set(paths, keys[i], fixed.value.1);
      i := i + 1;
    }
    return Ok((counts, paths));
  }

  /** `Object.keys(pathItem).forEach(method => …)` of the id pass. */
  method FixIdPathItem(counts0: map<string, nat>, item0: Json) returns (r: Result<(map<string, nat>, Json)>)
    ensures r == FixIdItem(counts0, item0)
  {
    var methods := ObjectKeys(item0);
    if methods.Err? {
      return Err(methods.error);
    }
    r := FixIdMethods(counts0, item0, methods.value);
  }

  /** The loop over the methods of one path item. */
  method FixIdMethods(counts0: map<string, nat>, item0: Json, methods: seq<string>) returns (r: Result<(map<string, nat>, Json)>)
    ensures r == FixIdMethodsFrom(counts0, item0, methods, 0)
  {
    var counts := counts0;
    var item := item0;
    var j := 0;
    while j < |methods|
      invariant 0 <= j <= |methods|
      invariant FixIdMethodsFrom(counts0, item0, methods, 0) == FixIdMethodsFrom(counts, item, methods, j)
    {
      var verb := methods[j];
      var op := Get(item, verb);
      if op == JNull || op == JUndef {
        return Err(TypeError);
      }
      var name := ToStr(Get(op, "operationId"));
      if name in counts && counts[name] != 0 {
        op := Set(op, "operationId", JStr(name + "_" + NatToString(counts[name])));
        counts := counts[name := counts[name] + 1];
      } else {
        counts := counts[name := 1];
      }
      item := Set(item, verb, op);
      j := j + 1;
    }
    return Ok((counts, item));
  }
}
