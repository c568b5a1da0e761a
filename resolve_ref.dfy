/** `resolveRef` and `getValue` of lib/util/parse.ts: resolving `#`-rooted
    `$ref`s against the document root, catching every exception.

    The source updates the children of a non-ref node in place and returns
    that same node. Values have no identity, so the model returns the
    updated node; objects are assumed to have distinct keys, as JavaScript
    objects do, so assigning `result[key]` for each key in turn is the same
    as rewriting each entry where it stands. */
module Parse {
  import opened JsonModel
  import opened Text
  import opened RefScan

  /** `getValue(func, defaultValue)`, with the outcome of calling `func`
      given as a `Result`. */
  function GetValue<T>(attempt: Result<T>, fallback: T): T {
    match attempt
    case Ok(v) => v
    case Err(_) => fallback
  }

  /** `obj = obj[node]` for each segment in turn; reading from null or
      undefined throws. */
  function WalkPath(obj: Json, segs: seq<string>): Result<Json>
    decreases |segs|
  {
    if segs == [] then Ok(obj)
    else
      var next :- Read(obj, segs[0]);
      WalkPath(next, segs[1..])
  }

  /** The entries `{...v}` copies: an object's own entries, the indices of
      an array or a string, and nothing for any other value. */
  function OwnEntries(v: Json): seq<(string, Json)> {
    match v
    case JObj(fs) => Spread([], fs)
    case JArr(items) => seq(|items|, i requires 0 <= i < |items| => (NatToString(i), items[i]))
    case JStr(s) => seq(|s|, i requires 0 <= i < |s| => (NatToString(i), JStr([s[i]])))
    case _ => []
  }

  /** The `$ref` path when it is `#`-rooted: the segments after `#`. */
  function RootedPath(ref: string): Option<seq<string>> {
    var parts := Split(ref, '/');
    if parts[0] == "#" then Some(parts[1..]) else None
  }

  /** `resolveRef(rootData, refObject)`: the body's outcome, or `refObject`
      unchanged when the body throws. */
  function ResolveRef(root: Json, ref: Json): Json
    decreases ref, 2
  {
    GetValue(Resolution(root, ref), ref)
  }

  /** The body of the callback `resolveRef` hands to `getValue`. Reading
      `$ref` of null or undefined throws, and so does `split` on a `$ref`
      that is truthy but not a string. */
  function Resolution(root: Json, ref: Json): Result<Json>
    decreases ref, 1
  {
    var target :- Read(ref, "$ref");
    if Truthy(target) && !target.JStr? then Err(TypeError)
    else if Truthy(target) && RootedPath(target.s).Some? then
      var obj :- WalkPath(root, RootedPath(target.s).value);
      Ok(JObj(OwnEntries(obj)))
    else Ok(ResolveChildren(root, ref))
  }

  /** One child after the `Object.keys(result).forEach` step: resolved when
      `typeof` says object, kept otherwise. */
  function ResolveChild(root: Json, child: Json): Json
    decreases child, 3
  {
    if IsObjectType(child) then ResolveRef(root, child) else child
  }

  /** Every child of an object or array resolved where it stands; strings,
      numbers and booleans have no object children. */
  function ResolveChildren(root: Json, node: Json): Json
    decreases node, 0
  {
    match node
    case JObj(fs) =>
      JObj(seq(|fs|, i requires 0 <= i < |fs| => (fs[i].0, ResolveChild(root, Child(node, i)))))
    case JArr(items) =>
      JArr(seq(|items|, i requires 0 <= i < |items| => ResolveChild(root, Child(node, i))))
    case _ => node
  }

  // ----- the loops -----

  /** `refPaths.forEach((node) => { obj = obj[node]; })` */
  method Walk(root: Json, segs: seq<string>) returns (r: Result<Json>)
    ensures r == WalkPath(root, segs)
  {
    var obj := root;
    var i := 0;
    while i < |segs|
      invariant 0 <= i <= |segs|
      invariant WalkPath(obj, segs[i..]) == WalkPath(root, segs)
    {
      assert segs[i..][1..] == segs[i + 1..];
      if obj == JNull || obj == JUndef {
        return Err(TypeError);
      }
      obj := Get(obj, segs[i]);
      i := i + 1;
    }
    return Ok(obj);
  }

  /** `resolveRef`, statement by statement. */
  method ResolveRefNode(root: Json, ref: Json) returns (result: Json)
    ensures result == ResolveRef(root, ref)
    decreases ref, 2
  {
    if ref == JNull || ref == JUndef {
      return ref;
    }
    var target := Get(ref, "$ref");
    if Truthy(target) {
      if !target.JStr? {
        return ref;
      }
      var parts := Split(target.s, '/');
      if parts[0] == "#" {
        var obj := Walk(root, parts[1..]);
        if obj.Err? {
          return ref;
        }
        return JObj(OwnEntries(obj.value));
      }
    }
    result := ResolveKeys(root, ref);
  }

  /** `Object.keys(result).forEach(...)`: each object-valued child replaced
      by its resolution, in key order. */
  method ResolveKeys(root: Json, node: Json) returns (result: Json)
    ensures result == ResolveChildren(root, node)
    decreases node, 1
  {
    match node
    case JObj(fs) =>
      result := ResolveFields(root, node);
    case JArr(items) =>
      result := ResolveItems(root, node);
    case _ =>
      return node;
  }

  /** The loop over the keys of an object. */
  method ResolveFields(root: Json, node: Json) returns (result: Json)
    requires node.JObj?
    ensures result == ResolveChildren(root, node)
    decreases node, 0
  {
    var fs := node.fields;
    var out := fs;
    var i := 0;
    while i < |fs|
      invariant 0 <= i <= |fs| && |out| == |fs|
      invariant forall j :: 0 <= j < i ==> out[j] == (fs[j].0, ResolveChild(root, fs[j].1))
      invariant forall j :: i <= j < |fs| ==> out[j] == fs[j]
    {
      var child := Child(node, i);
      if IsObjectType(child) {
        child := ResolveRefNode(root, child);
      }
      out := out[i := (fs[i].0, child)];
      i := i + 1;
    }
    return JObj(out);
  }

  /** The loop over the indices of an array. */
  method ResolveItems(root: Json, node: Json) returns (result: Json)
    requires node.JArr?
    ensures result == ResolveChildren(root, node)
    decreases node, 0
  {
    var items := node.items;
    var out := items;
    var i := 0;
    while i < |items|
      invariant 0 <= i <= |items| && |out| == |items|
      invariant forall j :: 0 <= j < i ==> out[j] == ResolveChild(root, items[j])
      invariant forall j :: i <= j < |items| ==> out[j] == items[j]
    {
      var child := Child(node, i);
      if IsObjectType(child) {
        child := ResolveRefNode(root, child);
      }
      out := out[i := child];
      i := i + 1;
    }
    return JArr(out);
  }
}
