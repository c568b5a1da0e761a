/** Collecting the nodes that carry a `$ref` (the two `findRef`s) and writing
    edited copies of them back into their places in the tree. */
module RefScan {
  import opened JsonModel

  /** `object.$ref` is truthy. */
  predicate IsRefNode(j: Json) {
    j.JObj? && Truthy(Get(j, "$ref"))
  }

  function Arity(j: Json): nat {
    match j
    case JObj(fs) => |fs|
    case JArr(items) => |items|
    case _ => 0
  }

  /** The `i`-th property value of an object or element of an array. */
  function Child(j: Json, i: nat): (c: Json)
    requires i < Arity(j)
    ensures c < j
  {
    match j
    case JObj(fs) => assert fs[i] in fs; fs[i].1
    case JArr(items) => items[i]
  }

  /** The children of an object or array, in order. */
  function Kids(j: Json): (r: seq<Json>)
    ensures |r| == Arity(j)
    ensures forall t :: 0 <= t < |r| ==> r[t] == Child(j, t)
  {
    match j
    case JObj(fs) => seq(|fs|, t requires 0 <= t < |fs| => fs[t].1)
    case JArr(items) => items
    case _ => []
  }

  lemma KidsCons(j: Json, i: nat)
    requires i < Arity(j)
    ensures Kids(j)[i..] == [Child(j, i)] + Kids(j)[i + 1..]
  {
  }

  /** The containers a `findRef` descends into: plain objects, and with
      `deep` arrays too. */
  predicate Descends(j: Json, deep: bool) {
    !IsRefNode(j) && (j.JObj? || (deep && j.JArr?))
  }

  /** `findRef`, in key order. `deep == false` is lib/util/fixSwagger.ts:98-114:
      null, primitives and arrays give `[]`. `deep == true` is
      lib/util/fixRefSwagger.ts:43-54: arrays are walked by index and reading
      `$ref` of null throws (`None`). A ref node is returned without looking
      inside it. */
  function FindRef(j: Json, deep: bool): (r: Option<seq<Json>>)
    ensures !deep ==> r.Some?
    ensures r.Some? ==> forall k :: 0 <= k < |r.value| ==> IsRefNode(r.value[k])
    ensures IsRefNode(j) ==> r == Some([j])
    ensures !IsRefNode(j) && !Descends(j, deep) && r.Some? ==> r.value == []
    decreases j, 1
  {
    if IsRefNode(j) then Some([j])
    else if Descends(j, deep) then FindRefFrom(j, deep, 0)
    else if deep && (j == JNull || j == JUndef) then None
    else Some([])
  }

  /** The concatenation of `FindRef` over the children from index `i` on. */
  function FindRefFrom(j: Json, deep: bool, i: nat): (r: Option<seq<Json>>)
    requires i <= Arity(j)
    ensures !deep ==> r.Some?
    ensures r.Some? ==> forall k :: 0 <= k < |r.value| ==> IsRefNode(r.value[k])
    decreases j, 0, Arity(j) - i
  {
    if i == Arity(j) then Some([])
    else
      match FindRef(Child(j, i), deep)
      case None => None
      case Some(a) =>
        match FindRefFrom(j, deep, i + 1)
        case None => None
        case Some(b) => Some(a + b)
  }

  lemma FindRefFromSplit(j: Json, deep: bool, i: nat)
    requires i < Arity(j) && FindRefFrom(j, deep, i).Some?
    ensures FindRef(Child(j, i), deep).Some? && FindRefFrom(j, deep, i + 1).Some?
    ensures FindRefFrom(j, deep, i).value
         == FindRef(Child(j, i), deep).value + FindRefFrom(j, deep, i + 1).value
  {
  }

  /** Pair each key of `fs` with the value in `vals` at the same place. */
  function Rekey(fs: seq<(string, Json)>, vals: seq<Json>): (r: seq<(string, Json)>)
    requires |vals| == |fs|
    ensures |r| == |fs| && Keys(r) == Keys(fs)
    ensures forall i :: 0 <= i < |fs| ==> r[i] == (fs[i].0, vals[i])
  {
    if fs == [] then [] else [(fs[0].0, vals[0])] + Rekey(fs[1..], vals[1..])
  }

  /** The tree with the `k`-th node `FindRef` collects replaced by `ns[k]`:
      the write-back of edits made to the collected objects. */
  function ReplaceRefs(j: Json, deep: bool, ns: seq<Json>): Json
    requires FindRef(j, deep).Some? && |ns| == |FindRef(j, deep).value|
    decreases j, 1
  {
    if IsRefNode(j) then ns[0]
    else if Descends(j, deep) then
      var kids := ReplaceKids(j, deep, 0, ns);
      match j
      case JObj(fs) => JObj(Rekey(fs, kids))
      case JArr(_) => JArr(kids)
    else j
  }

  function ReplaceKids(j: Json, deep: bool, i: nat, ns: seq<Json>): (r: seq<Json>)
    requires i <= Arity(j) && FindRefFrom(j, deep, i).Some?
    requires |ns| == |FindRefFrom(j, deep, i).value|
    ensures |r| == Arity(j) - i
    decreases j, 0, Arity(j) - i
  {
    if i == Arity(j) then []
    else
      FindRefFromSplit(j, deep, i);
      var n := |FindRef(Child(j, i), deep).value|;
      [ReplaceRefs(Child(j, i), deep, ns[..n])] + ReplaceKids(j, deep, i + 1, ns[n..])
  }

  /** Writing back the nodes exactly as collected changes nothing. */
  lemma {:induction false} ReplaceRefsIdentity(j: Json, deep: bool)
    requires FindRef(j, deep).Some?
    ensures ReplaceRefs(j, deep, FindRef(j, deep).value) == j
    decreases j, 1
  {
    if !IsRefNode(j) && Descends(j, deep) {
      ReplaceKidsIdentity(j, deep, 0);
      assert Kids(j)[0..] == Kids(j);
      match j
      case JObj(fs) =>
        assert Rekey(fs, Kids(j)) == fs;
      case JArr(items) =>
    }
  }

  lemma {:induction false} ReplaceKidsIdentity(j: Json, deep: bool, i: nat)
    requires i <= Arity(j) && FindRefFrom(j, deep, i).Some?
    ensures ReplaceKids(j, deep, i, FindRefFrom(j, deep, i).value) == Kids(j)[i..]
    decreases j, 0, Arity(j) - i
  {
    if i < Arity(j) {
      var ns := FindRefFrom(j, deep, i).value;
      var n := KidsHead(j, deep, i, ns);
      FindRefFromSplit(j, deep, i);
      assert ns[..n] == FindRef(Child(j, i), deep).value;
      assert ns[n..] == FindRefFrom(j, deep, i + 1).value;
      ReplaceRefsIdentity(Child(j, i), deep);
      ReplaceKidsIdentity(j, deep, i + 1);
      KidsCons(j, i);
    }
  }

  // ----- where the written-back nodes end up -----

  /** `FindRef` over each of `ns` in turn, the lists concatenated. */
  function FindRefAll(ns: seq<Json>, deep: bool): (r: Option<seq<Json>>)
    ensures (forall k :: 0 <= k < |ns| ==> FindRef(ns[k], deep).Some?) ==> r.Some?
  {
    if ns == [] then Some([])
    else
      match FindRef(ns[0], deep)
      case None => None
      case Some(a) =>
        match FindRefAll(ns[1..], deep)
        case None => None
        case Some(b) => Some(a + b)
  }

  lemma {:induction false} FindRefAllAppend(a: seq<Json>, b: seq<Json>, deep: bool)
    ensures FindRefAll(a + b, deep)
         == if FindRefAll(a, deep).Some? && FindRefAll(b, deep).Some?
            then Some(FindRefAll(a, deep).value + FindRefAll(b, deep).value) else None
  {
    if a != [] {
      assert (a + b)[0] == a[0] && (a + b)[1..] == a[1..] + b;
      FindRefAllAppend(a[1..], b, deep);
      if FindRef(a[0], deep).Some? && FindRefAll(a[1..], deep).Some? && FindRefAll(b, deep).Some? {
        var x := FindRef(a[0], deep).value;
        var y := FindRefAll(a[1..], deep).value;
        var z := FindRefAll(b, deep).value;
        assert x + (y + z) == (x + y) + z;
      }
    } else {
      assert a + b == b;
      assert FindRefAll(a, deep) == Some([]);
      if FindRefAll(b, deep).Some? {
        assert [] + FindRefAll(b, deep).value == FindRefAll(b, deep).value;
      }
    }
  }

  lemma FindRefAllOne(ns: seq<Json>, deep: bool)
    requires |ns| == 1
    ensures FindRefAll(ns, deep) == FindRef(ns[0], deep)
  {
    assert ns[1..] == [];
    if FindRef(ns[0], deep).Some? {
      assert FindRef(ns[0], deep).value + [] == FindRef(ns[0], deep).value;
    }
  }

  /** A list of ref nodes is found as it is. */
  lemma {:induction false} FindRefAllRefs(ns: seq<Json>, deep: bool)
    requires forall k :: 0 <= k < |ns| ==> IsRefNode(ns[k])
    ensures FindRefAll(ns, deep) == Some(ns)
  {
    if ns != [] {
      FindRefAllRefs(ns[1..], deep);
      assert [ns[0]] + ns[1..] == ns;
    }
  }

  /** A falsy value is neither a ref node nor a container, so it is written
      back as it was. */
  lemma ReplaceRefsFalsy(j: Json, deep: bool, ns: seq<Json>)
    requires FindRef(j, deep).Some? && |ns| == |FindRef(j, deep).value| && !Truthy(j)
    ensures ReplaceRefs(j, deep, ns) == j
  {
  }

  /** `after` agrees with `before` wherever `before` is falsy. */
  predicate KeepsFalsy(before: seq<Json>, after: seq<Json>) {
    |after| == |before| && forall t :: 0 <= t < |before| && !Truthy(before[t]) ==> after[t] == before[t]
  }

  lemma KeepsFalsyCons(a: Json, b: Json, x: seq<Json>, y: seq<Json>)
    requires (!Truthy(a) ==> b == a) && KeepsFalsy(x, y)
    ensures KeepsFalsy([a] + x, [b] + y)
  {
  }

  lemma {:induction false} ReplaceKidsFalsy(j: Json, deep: bool, i: nat, ns: seq<Json>)
    requires i <= Arity(j) && FindRefFrom(j, deep, i).Some?
    requires |ns| == |FindRefFrom(j, deep, i).value|
    ensures KeepsFalsy(Kids(j)[i..], ReplaceKids(j, deep, i, ns))
    decreases Arity(j) - i
  {
    if i < Arity(j) {
      var n := KidsHead(j, deep, i, ns);
      if !Truthy(Child(j, i)) {
        ReplaceRefsFalsy(Child(j, i), deep, ns[..n]);
      }
      ReplaceKidsFalsy(j, deep, i + 1, ns[n..]);
      KidsCons(j, i);
      KeepsFalsyCons(Child(j, i), ReplaceRefs(Child(j, i), deep, ns[..n]),
                     Kids(j)[i + 1..], ReplaceKids(j, deep, i + 1, ns[n..]));
    }
  }

  /** Rekeying with values that keep every falsy entry keeps a falsy
      property falsy, with the same value. */
  lemma {:induction false} RekeyKeepsFalsy(fs: seq<(string, Json)>, vals: seq<Json>, k: string)
    requires |vals| == |fs|
    requires forall t :: 0 <= t < |fs| && !Truthy(fs[t].1) ==> vals[t] == fs[t].1
    requires !Truthy(Get(JObj(fs), k))
    ensures Get(JObj(Rekey(fs, vals)), k) == Get(JObj(fs), k)
  {
    if fs != [] && fs[0].0 != k {
      RekeyKeepsFalsy(fs[1..], vals[1..], k);
    }
  }

  /** The write-back puts the `k`-th node where the `k`-th collected ref
      was: walking the new tree finds, in order, what walking each written
      node finds, so a list of ref nodes is found again as written. */
  lemma {:induction false} ReplaceRefsFound(j: Json, deep: bool, ns: seq<Json>)
    requires FindRef(j, deep).Some? && |ns| == |FindRef(j, deep).value|
    ensures FindRef(ReplaceRefs(j, deep, ns), deep) == FindRefAll(ns, deep)
    decreases j, 2
  {
    if IsRefNode(j) {
      RefNodeFound(j, deep, ns);
    } else if Descends(j, deep) {
      ContainerFound(j, deep, ns);
    } else {
      assert ns == [];
    }
  }

  /** Ref nodes written back are found again, each in its place. */
  lemma ReplaceRefsPlaced(j: Json, deep: bool, ns: seq<Json>)
    requires FindRef(j, deep).Some? && |ns| == |FindRef(j, deep).value|
    requires forall k :: 0 <= k < |ns| ==> IsRefNode(ns[k])
    ensures FindRef(ReplaceRefs(j, deep, ns), deep) == Some(ns)
  {
    ReplaceRefsFound(j, deep, ns);
    FindRefAllRefs(ns, deep);
  }

  lemma RefNodeFound(j: Json, deep: bool, ns: seq<Json>)
    requires FindRef(j, deep).Some? && |ns| == |FindRef(j, deep).value| && IsRefNode(j)
    ensures FindRef(ReplaceRefs(j, deep, ns), deep) == FindRefAll(ns, deep)
  {
    assert ReplaceRefs(j, deep, ns) == ns[0];
    FindRefAllOne(ns, deep);
  }

  lemma {:induction false} ContainerFound(j: Json, deep: bool, ns: seq<Json>)
    requires FindRef(j, deep).Some? && |ns| == |FindRef(j, deep).value| && Descends(j, deep)
    ensures FindRef(ReplaceRefs(j, deep, ns), deep) == FindRefAll(ns, deep)
    decreases j, 1
  {
    var r := ReplaceRefs(j, deep, ns);
    ReplacedContainer(j, deep, ns);
    assert FindRef(j, deep) == FindRefFrom(j, deep, 0);
    assert FindRef(r, deep) == FindRefFrom(r, deep, 0);
    assert Kids(r)[0..] == Kids(r);
    ReplaceKidsFound(j, deep, 0, ns, r);
  }

  /** A container the walk enters is written back as a container of the
      same kind and size, still without a truthy `$ref`, holding the
      rewritten children. */
  lemma ReplacedContainer(j: Json, deep: bool, ns: seq<Json>)
    requires FindRef(j, deep).Some? && |ns| == |FindRef(j, deep).value| && Descends(j, deep)
    ensures var r := ReplaceRefs(j, deep, ns);
            Descends(r, deep) && Arity(r) == Arity(j) && Kids(r) == ReplaceKids(j, deep, 0, ns)
  {
    var kids := ReplaceKids(j, deep, 0, ns);
    match j
    case JObj(fs) =>
      assert ReplaceRefs(j, deep, ns) == JObj(Rekey(fs, kids));
      ReplaceKidsFalsy(j, deep, 0, ns);
      assert Kids(j)[0..] == Kids(j);
      RekeyedObject(fs, kids);
    case JArr(items) =>
  }

  lemma RekeyedObject(fs: seq<(string, Json)>, kids: seq<Json>)
    requires !Truthy(Get(JObj(fs), "$ref")) && KeepsFalsy(Kids(JObj(fs)), kids)
    ensures !IsRefNode(JObj(Rekey(fs, kids))) && Kids(JObj(Rekey(fs, kids))) == kids
  {
    forall t | 0 <= t < |fs| && !Truthy(fs[t].1) ensures kids[t] == fs[t].1 {
      assert Kids(JObj(fs))[t] == fs[t].1;
    }
    RekeyKeepsFalsy(fs, kids, "$ref");
    assert Kids(JObj(Rekey(fs, kids))) == kids;
  }

  lemma {:induction false} ReplaceKidsFound(j: Json, deep: bool, i: nat, ns: seq<Json>, r: Json)
    requires i <= Arity(j) && FindRefFrom(j, deep, i).Some?
    requires |ns| == |FindRefFrom(j, deep, i).value|
    requires Arity(r) == Arity(j) && Kids(r)[i..] == ReplaceKids(j, deep, i, ns)
    ensures FindRefFrom(r, deep, i) == FindRefAll(ns, deep)
    decreases j, 0, Arity(j) - i
  {
    if i == Arity(j) {
      assert ns == [];
    } else {
      var n := KidsHead(j, deep, i, ns);
      var head, tail := ns[..n], ns[n..];
      var first := ReplaceRefs(Child(j, i), deep, head);
      SplitAt(Kids(r), i, first, ReplaceKids(j, deep, i + 1, tail));
      ReplaceRefsFound(Child(j, i), deep, head);
      ReplaceKidsFound(j, deep, i + 1, tail, r);
      FindRefAllAppend(head, tail, deep);
      assert ns == head + tail;
      FindRefFromStep(r, deep, i, FindRefAll(head, deep), FindRefAll(tail, deep));
    }
  }

  /** How `ReplaceKids` hands the first child its share `ns[..n]` of the nodes. */
  lemma KidsHead(j: Json, deep: bool, i: nat, ns: seq<Json>) returns (n: nat)
    requires i < Arity(j) && FindRefFrom(j, deep, i).Some?
    requires |ns| == |FindRefFrom(j, deep, i).value|
    ensures FindRef(Child(j, i), deep).Some? && n == |FindRef(Child(j, i), deep).value|
    ensures FindRefFrom(j, deep, i + 1).Some? && n <= |ns|
    ensures |ns[n..]| == |FindRefFrom(j, deep, i + 1).value|
    ensures ReplaceKids(j, deep, i, ns)
         == [ReplaceRefs(Child(j, i), deep, ns[..n])] + ReplaceKids(j, deep, i + 1, ns[n..])
  {
    FindRefFromSplit(j, deep, i);
    n := |FindRef(Child(j, i), deep).value|;
  }

  /** One step of `FindRefFrom`, over results already known. */
  lemma FindRefFromStep(r: Json, deep: bool, i: nat, a: Option<seq<Json>>, b: Option<seq<Json>>)
    requires i < Arity(r) && FindRef(Child(r, i), deep) == a && FindRefFrom(r, deep, i + 1) == b
    ensures FindRefFrom(r, deep, i) == if a.Some? && b.Some? then Some(a.value + b.value) else None
  {
  }

  lemma SplitAt(s: seq<Json>, i: nat, x: Json, rest: seq<Json>)
    requires i < |s| && s[i..] == [x] + rest
    ensures s[i] == x && s[i + 1..] == rest
  {
    assert s[i] == s[i..][0];
    assert s[i + 1..] == s[i..][1..];
  }
}
