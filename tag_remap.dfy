/** The tag remap that follows the Swagger 2.0 conversion, written twice
    in the same words: lib/index.ts:95-109 (`convertSwagger2OpenAPI`) and
    lib/cli/genSdk.ts:49-63 (`genAPISDKFromUrl`). Every tag of every
    operation whose TagObject has a description is replaced by that
    description with its spaces removed. */
module TagRemap {
  import opened JsonModel
  import opened Text
  import opened FixOpenApi

  /** The callback of `method.tags.map`: `data.tags!.find(t => t.name ===
      tag)`, then the TagObject's description without spaces, or the tag
      itself when there is no TagObject or no description. `find` needs an
      array, reading `name` of a null or undefined entry before the match
      throws, and only a string description has `replace`. */
  function RenamedTag(tagList: Json, tag: Json): Result<Json> {
    if !tagList.JArr? then Err(TypeError)
    else
      var found :- FindTag(tagList.items, tag, 0);
      if found.None? then Ok(tag)
      else
        var description := Get(tagList.items[found.value], "description");
        if !Truthy(tagList.items[found.value]) || !Truthy(description) then Ok(tag)
        else if !description.JStr? then Err(TypeError)
        else Ok(JStr(RemoveSpaces(description.s)))
  }

  /** One operation: `if (method && method.tags && method.tags.length)`
      its tags are mapped, and only an array has `map`. */
  function RemapOperation(tagList: Json, op: Json): Result<Json> {
    var tags := Get(op, "tags");
    if !Truthy(op) || !Truthy(tags) || !Truthy(Get(tags, "length")) then Ok(op)
    else if !tags.JArr? then Err(TypeError)
    else
      var renamed :- MapThrowing(tag => RenamedTag(tagList, tag), tags.items);
      Ok(Set(op, "tags", JArr(renamed)))
  }

  /** `Object.keys(pathItem).forEach(key => …)`: null and undefined path
      items throw. */
  function RemapItem(tagList: Json, item: Json): Result<Json> {
    var methods :- ObjectKeys(item);
    EachKey(op => RemapOperation(tagList, op), item, methods, 0)
  }

  /** The document after the remap, or the exception it throws; the tag
      list is read from the document, which the remap does not change. */
  function RemapTagsSpec(data: Json): Result<Json> {
    if data == JNull || data == JUndef then Err(TypeError)
    else
      var keys :- ObjectKeys(Get(data, "paths"));
      var paths :- EachKey(item => RemapItem(Get(data, "tags"), item), Get(data, "paths"), keys, 0);
      Ok(Set(data, "paths", paths))
  }

  /** The nested `forEach` loops of the remap. */
  method RemapTags(data: Json) returns (r: Result<Json>)
    ensures r == RemapTagsSpec(data)
  {
    if data == JNull || data == JUndef {
      return Err(TypeError);
    }
    var keys := ObjectKeys(Get(data, "paths"));
    if keys.Err? {
      return Err(keys.error);
    }
    var paths := RemapPaths(Get(data, "tags"), Get(data, "paths"), keys.value);
    if paths.Err? {
      return Err(paths.error);
    }
    return Ok(Set(data, "paths", paths.value));
  }

  /** The outer loop, over the paths. */
  method RemapPaths(tagList: Json, paths0: Json, keys: seq<string>) returns (r: Result<Json>)
    ensures r == EachKey(item => RemapItem(tagList, item), paths0, keys, 0)
  {
    var f := item => RemapItem(tagList, item);
    var paths := paths0;
    var i := 0;
    while i < |keys|
      invariant 0 <= i <= |keys|
      invariant EachKey(f, paths0, keys, 0) == EachKey(f, paths, keys, i)
    {
      var item := RemapPathItem(tagList, Get(paths, keys[i]));
      EachKeyStep(f, paths, keys, i, item);
      if item.Err? {
        return Err(item.error);
      }
      paths := Set(paths, keys[i], item.value);
      i := i + 1;
    }
    return Ok(paths);
  }

  /** The inner loop, over the operations of one path item. */
  method RemapPathItem(tagList: Json, item0: Json) returns (r: Result<Json>)
    ensures r == RemapItem(tagList, item0)
  {
    var methods := ObjectKeys(item0);
    if methods.Err? {
      return Err(methods.error);
    }
    r := RemapOperations(tagList, item0, methods.value);
  }

  method RemapOperations(tagList: Json, item0: Json, methods: seq<string>) returns (r: Result<Json>)
    ensures r == EachKey(op => RemapOperation(tagList, op), item0, methods, 0)
  {
    var f := op => RemapOperation(tagList, op);
    var item := item0;
    var j := 0;
    while j < |methods|
      invariant 0 <= j <= |methods|
      invariant EachKey(f, item0, methods, 0) == EachKey(f, item, methods, j)
    {
      var op := RemapOperation(tagList, Get(item, methods[j]));
      EachKeyStep(f, item, methods, j, op);
      if op.Err? {
        return Err(op.error);
      }
      item := Set(item, methods[j], op.value);
      j := j + 1;
    }
    return Ok(item);
  }

  // ----- laws -----

  /** `find` runs off the end when no entry matches and none is null or
      undefined. */
  lemma {:induction false} FindTagNone(items: seq<Json>, tag: Json, i: nat)
    requires i <= |items|
    requires forall j :: i <= j < |items| ==>
               items[j] != JNull && items[j] != JUndef && !StrictEq(Get(items[j], "name"), tag)
    ensures FindTag(items, tag, i) == Ok(None)
    decreases |items| - i
  {
    if i < |items| {
      FindTagNone(items, tag, i + 1);
    }
  }

  /** A tag changes only into the space-free description of a TagObject
      named by it; a tag no TagObject names stays; and without an array of
      TagObjects there is nothing to search. */
  lemma RenamedTagLaws(tagList: Json, tag: Json)
    ensures !tagList.JArr? ==> RenamedTag(tagList, tag) == Err(TypeError)
    ensures RenamedTag(tagList, tag).Ok? && RenamedTag(tagList, tag).value != tag ==>
              exists i :: 0 <= i < |tagList.items|
                          && StrictEq(Get(tagList.items[i], "name"), tag)
                          && Get(tagList.items[i], "description").JStr?
                          && RenamedTag(tagList, tag).value == JStr(RemoveSpaces(Get(tagList.items[i], "description").s))
    ensures RenamedTag(tagList, tag).Ok? ==>
              RenamedTag(tagList, tag).value == tag
              || (RenamedTag(tagList, tag).value.JStr? && ' ' !in RenamedTag(tagList, tag).value.s)
    ensures (tagList.JArr? && forall j :: 0 <= j < |tagList.items| ==>
               tagList.items[j] != JNull && tagList.items[j] != JUndef
               && !StrictEq(Get(tagList.items[j], "name"), tag)) ==>
              RenamedTag(tagList, tag) == Ok(tag)
  {
    if tagList.JArr? {
      var r := RenamedTag(tagList, tag);
      var found := FindTag(tagList.items, tag, 0);
      if r.Ok? && r.value != tag {
        var i := found.value.value;
        assert Get(tagList.items[i], "description").JStr?;
      }
      if forall j :: 0 <= j < |tagList.items| ==>
           tagList.items[j] != JNull && tagList.items[j] != JUndef && !StrictEq(Get(tagList.items[j], "name"), tag) {
        FindTagNone(tagList.items, tag, 0);
      }
    }
  }

  /** An operation without tags or with an empty tag list is left as it
      is; otherwise its tags keep their number and order, each renamed on
      its own, and nothing else of the operation changes. */
  lemma RemapOperationLaws(tagList: Json, op: Json)
    ensures Get(op, "tags") == JUndef || Get(op, "tags") == JArr([]) ==> RemapOperation(tagList, op) == Ok(op)
    ensures IsNonEmptyArray(Get(op, "tags")) ==>
              var tags := Get(op, "tags").items;
              (RemapOperation(tagList, op).Ok? <==> forall i :: 0 <= i < |tags| ==> RenamedTag(tagList, tags[i]).Ok?)
              && (RemapOperation(tagList, op).Ok? ==>
                    var r := RemapOperation(tagList, op).value;
                    Get(r, "tags").JArr? && |Get(r, "tags").items| == |tags|
                    && (forall i :: 0 <= i < |tags| ==> Get(r, "tags").items[i] == RenamedTag(tagList, tags[i]).value)
                    && forall k :: k != "tags" ==> Get(r, k) == Get(op, k))
  {
    var tags := Get(op, "tags");
    if IsNonEmptyArray(tags) {
      assert op.JObj?;
      MapThrowingLaws(tag => RenamedTag(tagList, tag), tags.items);
      var renamed := MapThrowing(tag => RenamedTag(tagList, tag), tags.items);
      if renamed.Ok? {
        SetGet(op, "tags", JArr(renamed.value));
      }
    }
  }

  /** A path item keeps its keys, and each of its operations is remapped
      on its own. */
  lemma RemapItemLaws(tagList: Json, item: Json)
    requires item.JObj? && DistinctKeys(item.fields)
    ensures var ms := Keys(item.fields);
            (RemapItem(tagList, item).Ok? <==> forall j :: 0 <= j < |ms| ==> RemapOperation(tagList, Get(item, ms[j])).Ok?)
            && (RemapItem(tagList, item).Ok? ==>
                  var r := RemapItem(tagList, item).value;
                  r.JObj? && Keys(r.fields) == ms
                  && forall j :: 0 <= j < |ms| ==> Get(r, ms[j]) == RemapOperation(tagList, Get(item, ms[j])).value)
  {
    var ms := Keys(item.fields);
    var f := op => RemapOperation(tagList, op);
    EachKeyObjectLaws(f, item);
    assert forall x :: f(x) == RemapOperation(tagList, x);
  }

  /** The remap changes the document only under `paths`: every path keeps
      its place and is remapped against the document's own tag list. */
  lemma RemapTagsLaws(data: Json)
    requires data.JObj? && DistinctKeys(data.fields)
    requires Get(data, "paths").JObj? && DistinctKeys(Get(data, "paths").fields)
    ensures var paths := Get(data, "paths");
            var ps := Keys(paths.fields);
            RemapTagsSpec(data).Ok? <==> forall j :: 0 <= j < |ps| ==> RemapItem(Get(data, "tags"), Get(paths, ps[j])).Ok?
    ensures var paths := Get(data, "paths");
            var ps := Keys(paths.fields);
            RemapTagsSpec(data).Ok? ==>
              var r := RemapTagsSpec(data).value;
              (forall k :: k != "paths" ==> Get(r, k) == Get(data, k))
              && Get(r, "paths").JObj? && Keys(Get(r, "paths").fields) == ps
              && forall j :: 0 <= j < |ps| ==>
                   Get(Get(r, "paths"), ps[j]) == RemapItem(Get(data, "tags"), Get(paths, ps[j])).value
  {
    var paths := Get(data, "paths");
    var ps := Keys(paths.fields);
    var f := item => RemapItem(Get(data, "tags"), item);
    EachKeyLaws(f, paths, ps, 0);
    EachPath(data, f);
  }

  /** The document is the result of the loop over `paths`, set back. */
  lemma EachPath(data: Json, f: Json -> Result<Json>)
    requires data.JObj? && Get(data, "paths").JObj?
    requires f == (item => RemapItem(Get(data, "tags"), item))
    ensures RemapTagsSpec(data) == (var e := EachKey(f, Get(data, "paths"), Keys(Get(data, "paths").fields), 0);
                                    if e.Ok? then Ok(Set(data, "paths", e.value)) else Err(e.error))
    ensures forall v :: Get(Set(data, "paths", v), "paths") == v
    ensures forall v, k :: k != "paths" ==> Get(Set(data, "paths", v), k) == Get(data, k)
  {
    forall v ensures Get(Set(data, "paths", v), "paths") == v
              && forall k :: k != "paths" ==> Get(Set(data, "paths", v), k) == Get(data, k) {
      SetGet(data, "paths", v);
    }
  }
}
