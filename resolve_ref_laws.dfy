/** What `resolveRef` guarantees. */
module ParseLaws {
  import opened JsonModel
  import opened Text
  import opened RefScan
  import opened Parse

  /** Walking `a + b` walks `a`, then `b` from where `a` ended. */
  lemma {:induction false} WalkPathAppend(obj: Json, a: seq<string>, b: seq<string>)
    ensures WalkPath(obj, a + b) ==
              match WalkPath(obj, a)
              case Ok(o) => WalkPath(o, b)
              case Err(e) => Err(e)
    decreases |a|
  {
    if a == [] {
      assert a + b == b;
    } else {
      assert (a + b)[0] == a[0] && (a + b)[1..] == a[1..] + b;
      if obj != JNull && obj != JUndef {
        WalkPathAppend(Get(obj, a[0]), a[1..], b);
      }
    }
  }

  /** The call never throws: it returns `refObject` itself exactly when the
      body throws, which happens for null and undefined, for a truthy
      `$ref` that is not a string, and for a `#` path whose walk reads from
      null or undefined. */
  lemma ResolveRefFallsBack(root: Json, ref: Json)
    ensures Resolution(root, ref).Err? ==> ResolveRef(root, ref) == ref
    ensures Resolution(root, ref).Err? <==>
              ref == JNull || ref == JUndef
              || (Truthy(Get(ref, "$ref")) && !Get(ref, "$ref").JStr?)
              || (Get(ref, "$ref").JStr? && Get(ref, "$ref").s != ""
                  && RootedPath(Get(ref, "$ref").s).Some?
                  && WalkPath(root, RootedPath(Get(ref, "$ref").s).value).Err?)
  {
  }

  /** A `#` ref resolves to a copy of the node its path reaches: the
      entries of that node, with the ref's own siblings dropped and nothing
      inside the target resolved; for an object target the copy equals the
      target. */
  lemma ResolveRefCopiesTarget(root: Json, ref: Json, segs: seq<string>, target: Json)
    requires ref != JNull && ref != JUndef
    requires Get(ref, "$ref").JStr? && RootedPath(Get(ref, "$ref").s) == Some(segs)
    requires WalkPath(root, segs) == Ok(target)
    ensures ResolveRef(root, ref) == JObj(OwnEntries(target))
    ensures target.JObj? && DistinctKeys(target.fields) ==> ResolveRef(root, ref) == target
  {
    ResolveRefTarget(root, ref, segs, target);
    if target.JObj? && DistinctKeys(target.fields) {
      OwnEntriesObject(target);
    }
  }

  lemma ResolveRefTarget(root: Json, ref: Json, segs: seq<string>, target: Json)
    requires ref != JNull && ref != JUndef
    requires Get(ref, "$ref").JStr? && RootedPath(Get(ref, "$ref").s) == Some(segs)
    requires WalkPath(root, segs) == Ok(target)
    ensures ResolveRef(root, ref) == JObj(OwnEntries(target))
  {
  }

  /** Spreading an object with distinct keys copies it. */
  lemma OwnEntriesObject(target: Json)
    requires target.JObj? && DistinctKeys(target.fields)
    ensures JObj(OwnEntries(target)) == target
  {
    assert [] + target.fields == target.fields;
    SpreadAppends([], target.fields);
  }

  /** When the walk reaches a node that lacks only the final segment, the
      result is `{}`, the spread of `undefined`. */
  lemma ResolveRefMissingLast(root: Json, ref: Json, segs: seq<string>, last: string, parent: Json)
    requires ref != JNull && ref != JUndef
    requires Get(ref, "$ref").JStr? && RootedPath(Get(ref, "$ref").s) == Some(segs + [last])
    requires WalkPath(root, segs) == Ok(parent) && parent != JNull && parent != JUndef
    requires Get(parent, last) == JUndef
    ensures ResolveRef(root, ref) == JObj([])
  {
    WalkPathAppend(root, segs, [last]);
    assert WalkPath(root, segs + [last]) == Ok(JUndef);
    ResolveRefCopiesTarget(root, ref, segs + [last], JUndef);
  }

  /** When a segment before the last one is missing, the walk throws and the
      original ref object comes back unchanged. */
  lemma ResolveRefMissingInner(root: Json, ref: Json, segs: seq<string>, k: string, rest: seq<string>, parent: Json)
    requires ref != JNull && ref != JUndef
    requires Get(ref, "$ref").JStr? && RootedPath(Get(ref, "$ref").s) == Some(segs + [k] + rest)
    requires WalkPath(root, segs) == Ok(parent) && parent != JNull && parent != JUndef
    requires Get(parent, k) == JUndef && rest != []
    ensures ResolveRef(root, ref) == ref
  {
    WalkPathAppend(root, segs + [k], rest);
    WalkPathAppend(root, segs, [k]);
    assert WalkPath(root, segs + [k] + rest).Err?;
  }

  /** A node that is not null or undefined and carries no `#` ref keeps its
      shape: the same keys in the same order, or the same length, each
      child that `typeof` calls an object replaced by its resolution and the
      others kept; strings, numbers and booleans come back as they are. */
  lemma ResolveRefPlain(root: Json, ref: Json)
    requires ref != JNull && ref != JUndef
    requires !Truthy(Get(ref, "$ref")) || (Get(ref, "$ref").JStr? && RootedPath(Get(ref, "$ref").s).None?)
    ensures var r := ResolveRef(root, ref);
            match ref
            case JObj(fs) =>
              r.JObj? && Keys(r.fields) == Keys(fs)
              && forall i :: 0 <= i < |fs| ==>
                   (IsObjectType(fs[i].1) ==> r.fields[i].1 == ResolveRef(root, fs[i].1))
                   && (!IsObjectType(fs[i].1) ==> r.fields[i].1 == fs[i].1)
            case JArr(items) =>
              r.JArr? && |r.items| == |items|
              && forall i :: 0 <= i < |items| ==>
                   (IsObjectType(items[i]) ==> r.items[i] == ResolveRef(root, items[i]))
                   && (!IsObjectType(items[i]) ==> r.items[i] == items[i])
            case _ => r == ref
  {
    var r := ResolveRef(root, ref);
    assert r == ResolveChildren(root, ref);
    match ref
    case JObj(fs) =>
      forall i | 0 <= i < |fs|
        ensures r.fields[i].1 == ResolveChild(root, fs[i].1)
      {
        assert Child(ref, i) == fs[i].1;
      }
    case JArr(items) =>
      forall i | 0 <= i < |items|
        ensures r.items[i] == ResolveChild(root, items[i])
      {
        assert Child(ref, i) == items[i];
      }
    case _ =>
  }

  /** Reading a key of a resolved plain object reads the resolved child; a
      non-`#` `$ref` in particular is kept. */
  lemma ResolveRefGet(root: Json, ref: Json, k: string)
    requires ref.JObj? && DistinctKeys(ref.fields)
    requires !Truthy(Get(ref, "$ref")) || (Get(ref, "$ref").JStr? && RootedPath(Get(ref, "$ref").s).None?)
    ensures Get(ResolveRef(root, ref), k) ==
              if IsObjectType(Get(ref, k)) then ResolveRef(root, Get(ref, k)) else Get(ref, k)
    ensures Get(ResolveRef(root, ref), "$ref") == Get(ref, "$ref")
  {
    ResolvedLookup(root, ref, k);
    ResolvedLookup(root, ref, "$ref");
    if Get(ref, "$ref") == JNull {
      assert ResolveRef(root, JNull) == JNull;
    }
  }

  lemma ResolvedLookup(root: Json, ref: Json, k: string)
    requires ref.JObj? && DistinctKeys(ref.fields)
    requires !Truthy(Get(ref, "$ref")) || (Get(ref, "$ref").JStr? && RootedPath(Get(ref, "$ref").s).None?)
    ensures Get(ResolveRef(root, ref), k) ==
              if IsObjectType(Get(ref, k)) then ResolveRef(root, Get(ref, k)) else Get(ref, k)
  {
    var fs := ref.fields;
    ResolveRefPlain(root, ref);
    var out := ResolveRef(root, ref).fields;
    var i := LookupAligned(fs, out, k);
  }

  /** No object in the tree carries a truthy `$ref`. */
  predicate RefFree(j: Json)
    decreases j
  {
    match j
    case JObj(fs) => !Truthy(Get(j, "$ref")) && forall i :: 0 <= i < |fs| ==> RefFree(Child(j, i))
    case JArr(items) => forall i :: 0 <= i < |items| ==> RefFree(Child(j, i))
    case _ => true
  }

  /** A tree without refs resolves to itself. */
  lemma {:induction false} ResolveRefFree(root: Json, j: Json)
    requires RefFree(j)
    ensures ResolveRef(root, j) == j
    decreases j
  {
    if j != JNull && j != JUndef {
      ResolveRefPlain(root, j);
      forall i | 0 <= i < Arity(j) ensures ResolveChild(root, Child(j, i)) == Child(j, i) {
        if IsObjectType(Child(j, i)) {
          ResolveRefFree(root, Child(j, i));
        }
      }
      match j
      case JObj(fs) =>
        var out := ResolveRef(root, j).fields;
        assert forall i :: 0 <= i < |fs| ==> Child(j, i) == fs[i].1;
        assert forall i :: 0 <= i < |fs| ==> out[i].0 == Keys(out)[i] == fs[i].0;
        assert out == fs;
      case JArr(items) =>
        var out := ResolveRef(root, j).items;
        assert forall i :: 0 <= i < |items| ==> Child(j, i) == items[i];
        assert out == items;
      case _ =>
    }
  }
}
