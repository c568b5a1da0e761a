/** `resolveRefObject` of lib/ServiceGenerator.ts: following a `#`-rooted
    `$ref` from the document root, and again while the target is itself a
    ref. The source recurses without a bound; `depth` stands for the call
    stack, whose exhaustion by a cycle of refs is a RangeError. */
module ServiceRefs {
  import opened JsonModel
  import opened Text
  import opened Parse

  /** `resolveRefObject(refObject)` with at most `depth` nested calls left. */
  function ResolveRefObject(root: Json, node: Json, depth: nat): Result<Json>
    decreases depth
  {
    if !Truthy(node) || !Truthy(Get(node, "$ref")) then Ok(node)
    else if !Get(node, "$ref").JStr? then Err(TypeError)
    else
      match RootedPath(Get(node, "$ref").s)
      case None => Ok(JUndef)
      case Some(segs) =>
        var obj :- WalkPath(root, segs);
        var inner :- Read(obj, "$ref");
        if !Truthy(inner) then Ok(obj)
        else if depth == 0 then Err(RangeError)
        else ResolveRefObject(root, obj, depth - 1)
  }

  /** `resolveRefObject`, statement by statement. */
  method ResolveRefObjectNode(root: Json, node: Json, depth: nat) returns (r: Result<Json>)
    ensures r == ResolveRefObject(root, node, depth)
    decreases depth
  {
    if !Truthy(node) || !Truthy(Get(node, "$ref")) {
      return Ok(node);
    }
    var ref := Get(node, "$ref");
    if !ref.JStr? {
      return Err(TypeError);
    }
    var parts := Split(ref.s, '/');
    if parts[0] == "#" {
      var found := Walk(root, parts[1..]);
      if found.Err? {
        return Err(found.error);
      }
      var obj := found.value;
      if obj == JNull || obj == JUndef {
        return Err(TypeError);
      }
      if Truthy(Get(obj, "$ref")) {
        if depth == 0 {
          return Err(RangeError);
        }
        r := ResolveRefObjectNode(root, obj, depth - 1);
        return;
      }
      return Ok(obj);
    }
    return Ok(JUndef);
  }

  // ----- laws -----

  /** A value without a truthy `$ref` is returned as it is, and a ref that
      is not `#`-rooted gives `undefined`. */
  lemma ResolveRefObjectPlain(root: Json, node: Json, depth: nat)
    ensures !Truthy(node) || !Truthy(Get(node, "$ref")) ==> ResolveRefObject(root, node, depth) == Ok(node)
    ensures (Truthy(node) && Get(node, "$ref").JStr? && Get(node, "$ref").s != ""
             && RootedPath(Get(node, "$ref").s).None?) ==> ResolveRefObject(root, node, depth) == Ok(JUndef)
  {
  }

  /** Whatever comes back carries no truthy `$ref`: refs are followed until
      a target without one is reached. */
  lemma {:induction false} ResolveRefObjectDone(root: Json, node: Json, depth: nat)
    requires ResolveRefObject(root, node, depth).Ok?
    ensures !Truthy(Get(ResolveRefObject(root, node, depth).value, "$ref"))
    decreases depth
  {
    if Truthy(node) && Truthy(Get(node, "$ref")) {
      var segs := RootedPath(Get(node, "$ref").s);
      if segs.Some? {
        var obj := WalkPath(root, segs.value).value;
        if Truthy(Get(obj, "$ref")) {
          ResolveRefObjectDone(root, obj, depth - 1);
        }
      }
    }
  }

  /** One step of the chain: a ref whose target is itself a ref resolves as
      that target does, one call deeper. */
  lemma ResolveRefObjectFollows(root: Json, node: Json, segs: seq<string>, target: Json, depth: nat)
    requires Truthy(node) && Get(node, "$ref").JStr? && RootedPath(Get(node, "$ref").s) == Some(segs)
    requires WalkPath(root, segs) == Ok(target) && target != JNull && target != JUndef
    ensures !Truthy(Get(target, "$ref")) ==> ResolveRefObject(root, node, depth) == Ok(target)
    ensures Truthy(Get(target, "$ref")) ==> ResolveRefObject(root, node, depth + 1) == ResolveRefObject(root, target, depth)
  {
  }

  /** The depth only bounds the chain: a result reached with some depth is
      reached with any larger one. */
  lemma {:induction false} ResolveRefObjectDeeper(root: Json, node: Json, depth: nat, more: nat)
    requires ResolveRefObject(root, node, depth).Ok? && depth <= more
    ensures ResolveRefObject(root, node, more) == ResolveRefObject(root, node, depth)
    decreases depth
  {
    if Truthy(node) && Truthy(Get(node, "$ref")) {
      var segs := RootedPath(Get(node, "$ref").s);
      if segs.Some? {
        var obj := WalkPath(root, segs.value).value;
        if Truthy(Get(obj, "$ref")) {
          ResolveRefObjectDeeper(root, obj, depth - 1, more - 1);
        }
      }
    }
  }

  /** There is no cycle guard: a schema whose `$ref` names itself exhausts
      the stack however deep it is. */
  lemma {:induction false} ResolveRefObjectSelfCycle(depth: nat)
    ensures var a := JObj([("$ref", JStr("#/A"))]);
            ResolveRefObject(JObj([("A", a)]), a, depth) == Err(RangeError)
    decreases depth
  {
    var a := JObj([("$ref", JStr("#/A"))]);
    var root := JObj([("A", a)]);
    assert "#/A" == "#" + ['/'] + "A";
    SplitAt("#", "A", '/');
    SplitNone("#", '/');
    SplitNone("A", '/');
    assert RootedPath("#/A") == Some(["A"]);
    assert WalkPath(root, ["A"]) == Ok(a) by {
      assert ["A"][1..] == [];
    }
    if depth > 0 {
      ResolveRefObjectSelfCycle(depth - 1);
    }
  }
}
