/** The rename-and-rewrite pass over `definitions`: `fixRefName` in
    lib/util/fixSwagger.ts and its older variant `fixRefSwagger` in
    lib/util/fixRefSwagger.ts.

    The source collects the `$ref`-carrying objects, edits them through the
    collected references and relinks whole definitions under new keys. With
    values instead of references the model keeps the collected nodes in a
    list (edited by index), writes them back into their original places
    (`ReplaceRefs`), and records the relinking as a list of (current name,
    original key) slots from which `definitions` is rebuilt at the end.
    Collected nodes never nest and a move relinks a whole subtree, so this is
    the document the source leaves behind, except when the `definitions`
    object is itself a collected ref node: the source then edits that one
    object both as a ref and as the container it renames keys in, and the
    model does not follow that aliasing. */
module FixRef {
  import opened JsonModel
  import opened Text
  import opened RefScan

  const DefPrefix: string := "#/definitions/"

  /** `Current` is fixSwagger's naming rule, with its `renameTypePrefix`
      (a constant of lib/util/const.ts, which is not part of this model);
      `Legacy` is fixRefSwagger's. */
  datatype Variant = Current(renamePrefix: string) | Legacy

  /** fixRefSwagger's `findRef` also walks arrays and throws on null. */
  function Deep(v: Variant): bool { v.Legacy? }

  /** The definition key a collected ref names: `$ref` must be a string that
      starts with `#/definitions/`, otherwise the pass throws. */
  function RefKey(node: Json): Result<string> {
    match Get(node, "$ref")
    case JStr(r) => if DefPrefix <= r then Ok(r[|DefPrefix|..]) else Err(UnsupportedRef(r))
    case _ => Err(TypeError)
  }

  /** A ref resolves exactly when it is `#/definitions/` followed by its key;
      other strings are reported as unsupported and non-strings throw. */
  lemma RefKeyMeaning(node: Json)
    ensures RefKey(node).Ok? <==> Get(node, "$ref").JStr? && DefPrefix <= Get(node, "$ref").s
    ensures RefKey(node).Ok? ==> Get(node, "$ref") == JStr(DefPrefix + RefKey(node).value)
    ensures Get(node, "$ref").JStr? && !(DefPrefix <= Get(node, "$ref").s) ==>
              RefKey(node) == Err(UnsupportedRef(Get(node, "$ref").s))
    ensures !Get(node, "$ref").JStr? ==> RefKey(node) == Err(TypeError)
  {
    if RefKey(node).Ok? {
      var r := Get(node, "$ref").s;
      assert r == DefPrefix + r[|DefPrefix|..];
    }
  }

  /** The ref `Retarget` writes names the new key. */
  lemma RetargetRefKey(node: Json, name: string)
    ensures RefKey(Retarget(node, name)) == Ok(name)
  {
    assert (DefPrefix + name)[|DefPrefix|..] == name;
  }

  /** The entries `Object.keys(data.definitions || {})` visits: an object's
      properties, the indices of an array or a string with what they read,
      and none for anything else. */
  function Definitions(data: Json): seq<(string, Json)> {
    var d := Get(data, "definitions");
    match d
    case JObj(fs) => fs
    case JArr(items) => IndexedEntries(d, |items|)
    case JStr(s) => IndexedEntries(d, |s|)
    case _ => []
  }

  /** The keys are what `Object.keys` gives, and each index reads its
      entry's value. */
  lemma DefinitionsLaws(data: Json)
    ensures var d := Get(data, "definitions");
            var r := Definitions(data);
            (d.JObj? ==> r == d.fields)
            && (d.JArr? || d.JStr? ==>
                  Keys(r) == ObjectKeys(d).value && forall i :: 0 <= i < |r| ==> r[i].1 == Get(d, r[i].0))
            && (!d.JObj? && !d.JArr? && !d.JStr? ==> r == [])
  {
  }

  /** The first `n` indices of `d`, each with what `d` reads there. */
  function IndexedEntries(d: Json, n: nat): (r: seq<(string, Json)>)
    ensures Keys(r) == Indices(n)
    ensures forall i :: 0 <= i < n ==> r[i] == (NatToString(i), Get(d, NatToString(i)))
  {
    seq(n, i requires 0 <= i < n => (NatToString(i), Get(d, NatToString(i))))
  }

  /** An array's entries pair each index with its element. */
  lemma DefinitionsOfArray(data: Json)
    requires Get(data, "definitions").JArr?
    ensures var items := Get(data, "definitions").items;
            |Definitions(data)| == |items|
            && forall i :: 0 <= i < |items| ==> Definitions(data)[i] == (NatToString(i), items[i])
  {
    var items := Get(data, "definitions").items;
    forall i | 0 <= i < |items| ensures Definitions(data)[i] == (NatToString(i), items[i]) {
      ParseIndexOfNatToString(i);
    }
  }

  /** `delete refItem.$ref; refItem.type = 'any'` */
  function MarkAny(node: Json): (r: Json)
    ensures r.JObj? && Get(r, "$ref") == JUndef && Get(r, "type") == JStr("any")
  {
    match node
    case JObj(fs) =>
      RemoveLaws(fs, "$ref");
      PutLaws(Remove(fs, "$ref"), "type", JStr("any"));
      LookupLaws(Put(Remove(fs, "$ref"), "type", JStr("any")), "$ref");
      JObj(Put(Remove(fs, "$ref"), "type", JStr("any")))
    case _ => JObj([("type", JStr("any"))])
  }

  /** `refItem.$ref = '#/definitions/' + name` */
  function Retarget(node: Json, name: string): (r: Json)
    ensures r.JObj? && Get(r, "$ref") == JStr(DefPrefix + name)
  {
    match node
    case JObj(fs) => PutLaws(fs, "$ref", JStr(DefPrefix + name)); JObj(Put(fs, "$ref", JStr(DefPrefix + name)))
    case _ => JObj([("$ref", JStr(DefPrefix + name))])
  }

  lemma RetargetTwice(node: Json, a: string, b: string)
    ensures Retarget(Retarget(node, a), b) == Retarget(node, b)
  {
    match node
    case JObj(fs) => PutPut(fs, "$ref", JStr(DefPrefix + a), JStr(DefPrefix + b));
    case _ =>
  }

  /** What the pass makes of one collected node: refs to an unknown key are
      turned into `type: 'any'`, refs to a renamed key follow the rename,
      all others are left alone. */
  function Edited(node: Json, keys: seq<string>, renames: map<string, string>): Json {
    match RefKey(node)
    case Err(_) => node
    case Ok(k) =>
      if k !in keys then MarkAny(node)
      else if k in renames then Retarget(node, renames[k])
      else node
  }

  /** The collected nodes after the first `i` have been edited. */
  function Stage(found: seq<Json>, keys: seq<string>, renames: map<string, string>, i: nat): (r: seq<Json>)
    ensures |r| == |found|
    ensures forall m :: 0 <= m < |found| ==> r[m] == if m < i then Edited(found[m], keys, renames) else found[m]
  {
    seq(|found|, m requires 0 <= m < |found| => if m < i then Edited(found[m], keys, renames) else found[m])
  }

  lemma StageExt(items: seq<Json>, found: seq<Json>, keys: seq<string>, renames: map<string, string>, i: nat)
    requires |items| == |found|
    requires i <= |found|
    requires forall m :: 0 <= m < i ==> items[m] == Edited(found[m], keys, renames)
    requires items[i..] == found[i..]
    ensures items == Stage(found, keys, renames, i)
  {
    forall m | i <= m < |found| ensures items[m] == found[m] {
      assert items[m] == items[i..][m - i];
    }
  }

  /** The index of the first collected ref that makes the pass throw, or
      `|found|` when there is none. */
  function FirstBad(found: seq<Json>, from: nat): (i: nat)
    requires from <= |found|
    ensures from <= i <= |found|
    ensures forall m :: from <= m < i ==> RefKey(found[m]).Ok?
    ensures i < |found| ==> RefKey(found[i]).Err?
    decreases |found| - from
  {
    if from == |found| then from
    else if RefKey(found[from]).Err? then from
    else FirstBad(found, from + 1)
  }

  /** `refMap[k]` holds the indices of the first `i` collected refs that
      name key `k`. */
  ghost predicate FiledUpTo(found: seq<Json>, refMap: map<string, seq<nat>>, i: nat) {
    forall k, m: nat {:trigger m in refMap[k]} :: k in refMap ==> (m in refMap[k] <==> m < i && m < |found| && RefKey(found[m]) == Ok(k))
  }

  /** `refMap` after the whole ref list: one entry per definition key, each
      holding the indices of the refs to it. */
  ghost predicate AllFiled(found: seq<Json>, keys: seq<string>, refMap: map<string, seq<nat>>) {
    (forall k :: k in refMap <==> k in keys) && FiledUpTo(found, refMap, |found|)
  }

  /** Every collected ref carries the edits for `renames`. */
  ghost predicate AllEdited(items: seq<Json>, found: seq<Json>, keys: seq<string>, renames: map<string, string>) {
    |items| == |found| && forall m :: 0 <= m < |found| ==> items[m] == Edited(found[m], keys, renames)
  }

  lemma FiledSkip(found: seq<Json>, refMap: map<string, seq<nat>>, i: nat)
    requires FiledUpTo(found, refMap, i) && i < |found|
    requires RefKey(found[i]).Ok? && RefKey(found[i]).value !in refMap
    ensures FiledUpTo(found, refMap, i + 1)
  {
  }

  lemma FiledPush(found: seq<Json>, refMap: map<string, seq<nat>>, i: nat, k: string)
    requires FiledUpTo(found, refMap, i) && i < |found|
    requires RefKey(found[i]) == Ok(k) && k in refMap
    ensures FiledUpTo(found, refMap[k := refMap[k] + [i]], i + 1)
  {
    var r := refMap[k := refMap[k] + [i]];
    forall k', m: nat | k' in r
      ensures m in r[k'] <==> m < i + 1 && m < |found| && RefKey(found[m]) == Ok(k')
    {
      if k' == k {
        assert m in r[k'] <==> m in refMap[k] || m == i;
      }
    }
  }

  // ----- the rename plan: `count` and the current name of each definition -----

  /** The loop state over `Object.keys(refMap)`: `slots` lists the current
      keys of `data.definitions`, each with the original key whose schema it
      holds; `renames` records the new name chosen for each renamed key. */
  datatype PlanState = PlanState(slots: seq<(string, string)>, count: nat, renames: map<string, string>)

  function InitialSlots(keys: seq<string>): (r: seq<(string, string)>)
    ensures Keys(r) == keys
    ensures forall i :: 0 <= i < |keys| ==> r[i] == (keys[i], keys[i])
  {
    if keys == [] then [] else [(keys[0], keys[0])] + InitialSlots(keys[1..])
  }

  /** `data.definitions[name]` in the middle of the loop. */
  function CurrentDef(defs: seq<(string, Json)>, slots: seq<(string, string)>, name: string): Json {
    match Lookup(slots, name)
    case None => JUndef
    case Some(k) => match Lookup(defs, k) case None => JUndef case Some(d) => d
  }

  /** The new name for an invalid key. fixSwagger: the key with every
      character outside `[A-Za-z0-9_]` replaced by `_`, or `renameTypePrefix`
      followed by `count` when a definition of that name exists. fixRefSwagger:
      the first `«` replaced by `_` and the first `»` removed, or `DTO_` and
      `count` when that is still invalid. Either way the name is valid. */
  function NewName(v: Variant, defs: seq<(string, Json)>, slots: seq<(string, string)>, count: nat, key: string): (r: string)
    ensures v.Legacy? || IsValidTypeName(v.renamePrefix) ==> IsValidTypeName(r)
  {
    match v
    case Current(prefix) =>
      var s := SanitizeTypeName(key);
      SanitizeTypeNameValid(key);
      if Truthy(CurrentDef(defs, slots, s)) then prefix + NatToString(count) else s
    case Legacy =>
      var s := ReplaceFirstChar(ReplaceFirstChar(key, '\U{AB}', "_"), '\U{BB}', "");
      if IsValidTypeName(s) then s else "DTO_" + NatToString(count)
  }

  /** One iteration of the rename loop. */
  function PlanStep(v: Variant, defs: seq<(string, Json)>, st: PlanState, key: string): PlanState {
    if IsValidTypeName(key) then st
    else
      var name := NewName(v, defs, st.slots, st.count, key);
      var from := match Lookup(st.slots, key) case Some(k) => k case None => key;
      PlanState(Remove(Put(st.slots, name, from), key), st.count + 1, st.renames[key := name])
  }

  /** The state after the first `n` keys of `order`, the distinct keys of
      `definitions`. */
  function PlanUpTo(v: Variant, defs: seq<(string, Json)>, order: seq<string>, n: nat): PlanState
    requires n <= |order|
  {
    if n == 0 then PlanState(InitialSlots(Keys(defs)), 0, map[])
    else PlanStep(v, defs, PlanUpTo(v, defs, order, n - 1), order[n - 1])
  }

  function CountInvalid(keys: seq<string>, n: nat): nat
    requires n <= |keys|
  {
    if n == 0 then 0 else CountInvalid(keys, n - 1) + (if IsValidTypeName(keys[n - 1]) then 0 else 1)
  }

  /** `definitions` rebuilt from the slots, over the written-back tree. */
  function Rebuilt(defs: seq<(string, Json)>, slots: seq<(string, string)>): (r: seq<(string, Json)>)
    ensures Keys(r) == Keys(slots)
    ensures forall i :: 0 <= i < |slots| ==>
              r[i] == (slots[i].0, match Lookup(defs, slots[i].1) case Some(d) => d case None => JUndef)
  {
    if slots == [] then []
    else
      [(slots[0].0, match Lookup(defs, slots[0].1) case Some(d) => d case None => JUndef)]
      + Rebuilt(defs, slots[1..])
  }

  /** The written-back document; after at least one rename `definitions` is
      the object the moves left behind. */
  function Assemble(d: Json, slots: seq<(string, string)>, count: nat): Json {
    if count == 0 then d
    else match d
      case JObj(fs) => JObj(Put(fs, "definitions", JObj(Rebuilt(Definitions(d), slots))))
      case _ => d
  }

  /** The document and the exception the pass leaves behind. On a throw the
      refs before the offending one have already been edited. */
  function FixRefNameSpec(v: Variant, data: Json): (Json, Option<Error>) {
    if data == JNull || data == JUndef then (data, Some(TypeError))
    else
      match FindRef(data, Deep(v))
      case None => (data, Some(TypeError))
      case Some(found) =>
        var defs := Definitions(data);
        var keys := Keys(defs);
        var bad := FirstBad(found, 0);
        if bad < |found| then
          (ReplaceRefs(data, Deep(v), Stage(found, keys, map[], bad)), Some(RefKey(found[bad]).error))
        else
          var st := FinalPlan(v, data);
          (Assemble(ReplaceRefs(data, Deep(v), Stage(found, keys, st.renames, |found|)), st.slots, st.count), None)
  }

  /** The rename plan after every distinct key of `definitions`. */
  function FinalPlan(v: Variant, data: Json): PlanState {
    var defs := Definitions(data);
    var keys := Keys(defs);
    var order := Distinct(keys, |keys|);
    PlanUpTo(v, defs, order, |order|)
  }

  /** lib/util/fixSwagger.ts:11-48 (`Current`) and lib/util/fixRefSwagger.ts:4-41
      (`Legacy`), loop for loop. */
  method FixRefName(v: Variant, data: Json) returns (out: Json, err: Option<Error>)
    ensures (out, err) == FixRefNameSpec(v, data)
  {
    if data == JNull || data == JUndef {
      return data, Some(TypeError);
    }
    var defs := Definitions(data);
    var keys := Keys(defs);
    var refMap, order := InitRefMap(keys);
    var collected := FindRef(data, Deep(v));
    if collected.None? {
      return data, Some(TypeError);
    }
    var found := collected.value;
    var refItems, bad;
    refItems, refMap, bad := CollectRefs(found, keys, refMap);
    if bad < |found| {
      SpecWhenBad(v, data, found);
      return ReplaceRefs(data, Deep(v), refItems), Some(RefKey(found[bad]).error);
    }
    var slots, count;
    refItems, slots, count := RenameKeys(v, defs, order, found, refMap, refItems);
    ghost var st := FinalPlan(v, data);
    assert st == PlanUpTo(v, defs, order, |order|);
    StageExt(refItems, found, keys, st.renames, |found|);
    SpecWhenResolved(v, data, found);
    return Assemble(ReplaceRefs(data, Deep(v), refItems), slots, count), None;
  }

  /** When some ref does not resolve, the refs before it are edited and its
      own exception is thrown. */
  lemma SpecWhenBad(v: Variant, data: Json, found: seq<Json>)
    requires data != JNull && data != JUndef
    requires FindRef(data, Deep(v)) == Some(found) && FirstBad(found, 0) < |found|
    ensures var bad := FirstBad(found, 0);
            var items := Stage(found, Keys(Definitions(data)), map[], bad);
            FixRefNameSpec(v, data) == (ReplaceRefs(data, Deep(v), items), Some(RefKey(found[bad]).error))
  {
  }

  /** When every ref resolves, the pass edits all of them under the final
      plan and rebuilds `definitions` from its slots. */
  lemma SpecWhenResolved(v: Variant, data: Json, found: seq<Json>)
    requires data != JNull && data != JUndef
    requires FindRef(data, Deep(v)) == Some(found) && FirstBad(found, 0) >= |found|
    ensures var st := FinalPlan(v, data);
            var items := Stage(found, Keys(Definitions(data)), st.renames, |found|);
            FixRefNameSpec(v, data) == (Assemble(ReplaceRefs(data, Deep(v), items), st.slots, st.count), None)
  {
  }

  /** `refMap[key] = []` for each key of `definitions`; `order` is the key
      order of `refMap`. */
  method InitRefMap(keys: seq<string>) returns (refMap: map<string, seq<nat>>, order: seq<string>)
    ensures forall k :: k in refMap <==> k in keys
    ensures forall k :: k in refMap ==> refMap[k] == []
    ensures order == Distinct(keys, |keys|)
  {
    refMap := map[];
    order := [];
    var i := 0;
    while i < |keys|
      invariant 0 <= i <= |keys|
      invariant order == Distinct(keys, i)
      invariant forall k :: k in refMap <==> k in keys[..i]
      invariant forall k :: k in refMap ==> refMap[k] == []
    {
      assert keys[..i + 1] == keys[..i] + [keys[i]];
      if keys[i] !in refMap {
        order := order + [keys[i]];
      }
      refMap := refMap[keys[i] := []];
      i := i + 1;
    }
    assert keys[..|keys|] == keys;
  }

  /** The `findRef(data).forEach` loop: stops at the first ref the pass cannot
      resolve (`bad < |found|`), marks refs to unknown keys, and files the
      index of every other ref under its key. */
  method CollectRefs(found: seq<Json>, keys: seq<string>, refMap0: map<string, seq<nat>>)
    returns (refItems: seq<Json>, refMap: map<string, seq<nat>>, bad: nat)
    requires forall k :: k in refMap0 <==> k in keys
    requires forall k :: k in refMap0 ==> refMap0[k] == []
    ensures bad == FirstBad(found, 0)
    ensures refItems == Stage(found, keys, map[], bad)
    ensures bad == |found| ==> AllFiled(found, keys, refMap)
  {
    refItems := found;
    refMap := refMap0;
    var i := 0;
    while i < |refItems|
      invariant Collected(found, keys, refItems, refMap, i)
    {
      var key := RefKey(found[i]);
      if key.Err? {
        FirstBadSkips(found, 0, i);
        StageExt(refItems, found, keys, map[], i);
        return refItems, refMap, i;
      }
      refItems, refMap := FileRef(found, keys, refItems, refMap, i);
      i := i + 1;
    }
    FirstBadSkips(found, 0, |found|);
    bad := |found|;
    StageExt(refItems, found, keys, map[], bad);
  }

  /** The loop state of `CollectRefs` after `i` refs. */
  ghost predicate Collected(found: seq<Json>, keys: seq<string>, refItems: seq<Json>,
                            refMap: map<string, seq<nat>>, i: nat) {
    i <= |found| && |refItems| == |found|
    && (forall m :: 0 <= m < i ==> RefKey(found[m]).Ok?)
    && (forall m :: 0 <= m < i ==> refItems[m] == Edited(found[m], keys, map[]))
    && refItems[i..] == found[i..]
    && (forall k :: k in refMap <==> k in keys)
    && FiledUpTo(found, refMap, i)
  }

  /** The callback for one resolvable ref: mark it when its key is unknown,
      else file its index under the key. */
  method FileRef(found: seq<Json>, keys: seq<string>, refItems: seq<Json>, refMap: map<string, seq<nat>>, i: nat)
    returns (refItems': seq<Json>, refMap': map<string, seq<nat>>)
    requires Collected(found, keys, refItems, refMap, i) && i < |found| && RefKey(found[i]).Ok?
    ensures Collected(found, keys, refItems', refMap', i + 1)
    ensures refItems'[i] == Edited(found[i], keys, map[])
  {
    var key := RefKey(found[i]).value;
    assert refItems[i] == refItems[i..][0];
    if key !in refMap {
      FiledSkip(found, refMap, i);
      refItems' := refItems[i := MarkAny(found[i])];
      refMap' := refMap;
    } else {
      FiledPush(found, refMap, i, key);
      refItems' := refItems;
      refMap' := refMap[key := refMap[key] + [i]];
    }
    assert refItems'[i + 1..] == refItems[i..][1..];
  }

  /** The `Object.keys(refMap).forEach` loop over a ref list without errors. */
  method RenameKeys(v: Variant, defs: seq<(string, Json)>, order: seq<string>,
                    found: seq<Json>, refMap: map<string, seq<nat>>, refItems0: seq<Json>)
    returns (refItems: seq<Json>, slots: seq<(string, string)>, count: nat)
    requires AllEdited(refItems0, found, Keys(defs), map[])
    requires AllFiled(found, Keys(defs), refMap)
    requires forall k :: k in order ==> k in Keys(defs)
    ensures var st := PlanUpTo(v, defs, order, |order|);
      slots == st.slots && count == st.count
      && AllEdited(refItems, found, Keys(defs), st.renames)
  {
    refItems := refItems0;
    slots := InitialSlots(Keys(defs));
    count := 0;
    var n := 0;
    while n < |order|
      invariant 0 <= n <= |order|
      invariant slots == PlanUpTo(v, defs, order, n).slots && count == PlanUpTo(v, defs, order, n).count
      invariant AllEdited(refItems, found, Keys(defs), PlanUpTo(v, defs, order, n).renames)
    {
      refItems, slots, count := RenameStep(v, defs, order, n, found, refMap, refItems, slots, count);
      n := n + 1;
    }
  }

  /** The callback for the `n`-th key: only invalid keys are renamed. */
  method RenameStep(v: Variant, defs: seq<(string, Json)>, order: seq<string>, n: nat,
                    found: seq<Json>, refMap: map<string, seq<nat>>,
                    refItems: seq<Json>, slots: seq<(string, string)>, count: nat)
    returns (refItems': seq<Json>, slots': seq<(string, string)>, count': nat)
    requires n < |order| && order[n] in Keys(defs)
    requires AllFiled(found, Keys(defs), refMap)
    requires slots == PlanUpTo(v, defs, order, n).slots && count == PlanUpTo(v, defs, order, n).count
    requires AllEdited(refItems, found, Keys(defs), PlanUpTo(v, defs, order, n).renames)
    ensures slots' == PlanUpTo(v, defs, order, n + 1).slots && count' == PlanUpTo(v, defs, order, n + 1).count
    ensures AllEdited(refItems', found, Keys(defs), PlanUpTo(v, defs, order, n + 1).renames)
  {
    ghost var st := PlanUpTo(v, defs, order, n);
    var key := order[n];
    assert PlanUpTo(v, defs, order, n + 1) == PlanStep(v, defs, st, key);
    refItems', slots', count' := refItems, slots, count;
    if !IsValidTypeName(key) {
      refItems', slots' := RenameKey(v, defs, found, refMap, refItems, slots, count, st, key);
      count' := count + 1;
    }
  }

  /** One iteration for an invalid key: move its definition to the new name
      and point every ref to it there. */
  method RenameKey(v: Variant, defs: seq<(string, Json)>, found: seq<Json>, refMap: map<string, seq<nat>>,
                   refItems: seq<Json>, slots: seq<(string, string)>, count: nat,
                   ghost st: PlanState, key: string)
    returns (refItems': seq<Json>, slots': seq<(string, string)>)
    requires key in refMap && !IsValidTypeName(key)
    requires st.slots == slots && st.count == count
    requires AllFiled(found, Keys(defs), refMap)
    requires AllEdited(refItems, found, Keys(defs), st.renames)
    ensures slots' == PlanStep(v, defs, st, key).slots && count + 1 == PlanStep(v, defs, st, key).count
    ensures AllEdited(refItems', found, Keys(defs), PlanStep(v, defs, st, key).renames)
  {
    var newName := NewName(v, defs, slots, count, key);
    var from := match Lookup(slots, key) case Some(k) => k case None => key;
    slots' := Put(slots, newName, from);
    slots' := Remove(slots', key);
    refItems' := RetargetAll(refItems, refMap[key], newName);
    assert PlanStep(v, defs, st, key).renames == st.renames[key := newName];
    forall m | 0 <= m < |found|
      ensures refItems'[m] == Edited(found[m], Keys(defs), st.renames[key := newName])
    {
      EditedAfterRename(found[m], Keys(defs), st.renames, key, newName);
      assert m in refMap[key] <==> RefKey(found[m]) == Ok(key);
    }
  }

  /** Renaming `key` changes the edit of exactly the refs to `key`, and
      those it points at the new name. */
  lemma EditedAfterRename(node: Json, keys: seq<string>, renames: map<string, string>, key: string, name: string)
    requires key in keys
    ensures RefKey(node) == Ok(key) ==>
              Edited(node, keys, renames[key := name]) == Retarget(Edited(node, keys, renames), name)
    ensures RefKey(node) != Ok(key) ==>
              Edited(node, keys, renames[key := name]) == Edited(node, keys, renames)
  {
    if RefKey(node) == Ok(key) && key in renames {
      RetargetTwice(node, renames[key], name);
    }
  }

  /** `refMap[key].forEach(refItem => { refItem.$ref = ... })` */
  method RetargetAll(items: seq<Json>, idx: seq<nat>, name: string) returns (r: seq<Json>)
    ensures |r| == |items|
    ensures forall m :: 0 <= m < |items| ==> r[m] == if m in idx then Retarget(items[m], name) else items[m]
  {
    r := items;
    var j := 0;
    while j < |idx|
      invariant 0 <= j <= |idx| && |r| == |items|
      invariant forall m :: 0 <= m < |items| ==> r[m] == if m in idx[..j] then Retarget(items[m], name) else items[m]
    {
      var m := idx[j];
      if m < |r| {
        if m in idx[..j] {
          RetargetTwice(items[m], name, name);
        }
        r := r[m := Retarget(r[m], name)];
      }
      assert idx[..j + 1] == idx[..j] + [m];
      j := j + 1;
    }
    assert idx[..|idx|] == idx;
  }

  lemma {:induction false} FirstBadSkips(found: seq<Json>, from: nat, i: nat)
    requires from <= i <= |found|
    requires forall m :: from <= m < i ==> RefKey(found[m]).Ok?
    requires i < |found| ==> RefKey(found[i]).Err?
    ensures FirstBad(found, from) == i
    decreases i - from
  {
    if from < i {
      FirstBadSkips(found, from + 1, i);
    }
  }
}
