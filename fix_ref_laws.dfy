/** What the rename-and-rewrite pass guarantees, stated over `FixRefNameSpec`
    and the pieces it is built from. */
module FixRefLaws {
  import opened JsonModel
  import opened Text
  import opened RefScan
  import opened FixRef

  // ----- one collected ref -----

  /** A ref to an absent definition loses `$ref` and becomes `type: 'any'`;
      a ref to a renamed key names the new key; a ref to a kept key is left
      exactly as it was. */
  lemma EditedRef(node: Json, keys: seq<string>, renames: map<string, string>)
    requires RefKey(node).Ok?
    ensures RefKey(node).value !in keys ==>
              Get(Edited(node, keys, renames), "$ref") == JUndef
              && Get(Edited(node, keys, renames), "type") == JStr("any")
    ensures RefKey(node).value in keys && RefKey(node).value in renames ==>
              RefKey(Edited(node, keys, renames)) == Ok(renames[RefKey(node).value])
    ensures RefKey(node).value in keys && RefKey(node).value !in renames ==>
              Edited(node, keys, renames) == node
  {
    var k := RefKey(node).value;
    if k in keys && k in renames {
      RetargetRefKey(node, renames[k]);
    }
  }

  // ----- the rename plan -----

  /** `count` rises by one for each invalid key, and only for those. */
  lemma {:induction false} PlanCount(v: Variant, defs: seq<(string, Json)>, order: seq<string>, n: nat)
    requires n <= |order|
    ensures PlanUpTo(v, defs, order, n).count == CountInvalid(order, n)
  {
    if n > 0 {
      PlanCount(v, defs, order, n - 1);
    }
  }

  /** Exactly the invalid keys seen so far have been renamed. */
  lemma {:induction false} PlanRenamed(v: Variant, defs: seq<(string, Json)>, order: seq<string>, n: nat)
    requires n <= |order|
    ensures forall k :: k in PlanUpTo(v, defs, order, n).renames <==> k in order[..n] && !IsValidTypeName(k)
  {
    if n > 0 {
      PlanRenamed(v, defs, order, n - 1);
      assert order[..n] == order[..n - 1] + [order[n - 1]];
    }
  }

  /** With a valid prefix every new name is valid, so it is never the key it
      replaces. */
  lemma {:induction false} PlanNamesValid(v: Variant, defs: seq<(string, Json)>, order: seq<string>, n: nat)
    requires n <= |order|
    requires v.Legacy? || IsValidTypeName(v.renamePrefix)
    ensures forall k :: k in PlanUpTo(v, defs, order, n).renames ==>
              IsValidTypeName(PlanUpTo(v, defs, order, n).renames[k]) && PlanUpTo(v, defs, order, n).renames[k] != k
  {
    if n > 0 {
      PlanNamesValid(v, defs, order, n - 1);
    }
  }

  /** Renaming an invalid key moves the schema to the new name and deletes
      the old key: afterwards `definitions[newName]` is what
      `definitions[key]` was. */
  lemma RenameMoves(v: Variant, defs: seq<(string, Json)>, order: seq<string>, n: nat)
    requires n < |order| && !IsValidTypeName(order[n])
    requires v.Legacy? || IsValidTypeName(v.renamePrefix)
    ensures var before := PlanUpTo(v, defs, order, n);
            var after := PlanUpTo(v, defs, order, n + 1);
            var name := after.renames[order[n]];
            order[n] !in Keys(after.slots)
            && (order[n] in Keys(before.slots) ==>
                  CurrentDef(defs, after.slots, name) == CurrentDef(defs, before.slots, order[n]))
  {
    var before := PlanUpTo(v, defs, order, n);
    var key := order[n];
    assert PlanUpTo(v, defs, order, n + 1) == PlanStep(v, defs, before, key);
    var name := NewName(v, defs, before.slots, before.count, key);
    var from := match Lookup(before.slots, key) case Some(k) => k case None => key;
    PutLaws(before.slots, name, from);
    RemoveLaws(Put(before.slots, name, from), key);
    LookupLaws(before.slots, key);
  }

  lemma InitialSlotsLookup(keys: seq<string>, k: string)
    requires k in keys
    ensures Lookup(InitialSlots(keys), k) == Some(k)
  {
    if keys[0] != k {
      InitialSlotsLookup(keys[1..], k);
    }
  }

  /** A definition with a valid key that no rename has chosen as its new
      name stays where it was. */
  lemma {:induction false} ValidKeyStays(v: Variant, defs: seq<(string, Json)>, order: seq<string>, n: nat, k: string)
    requires n <= |order|
    requires forall i, j :: 0 <= i < j < |order| ==> order[i] != order[j]
    requires k in Keys(defs) && IsValidTypeName(k)
    requires forall k' :: k' in PlanUpTo(v, defs, order, n).renames ==> PlanUpTo(v, defs, order, n).renames[k'] != k
    ensures Lookup(PlanUpTo(v, defs, order, n).slots, k) == Some(k)
  {
    if n == 0 {
      InitialSlotsLookup(Keys(defs), k);
    } else {
      var before := PlanUpTo(v, defs, order, n - 1);
      var key := order[n - 1];
      PlanRenamed(v, defs, order, n - 1);
      assert forall i :: 0 <= i < n - 1 ==> order[i] != key;
      assert key !in order[..n - 1];
      assert PlanUpTo(v, defs, order, n) == PlanStep(v, defs, before, key);
      StepKeepsSlot(v, defs, before, key, k);
      ValidKeyStays(v, defs, order, n - 1, k);
    }
  }

  /** One step leaves the slot of a valid key alone unless it picks that
      key as the new name; it never adds a rename for an earlier key. */
  lemma StepKeepsSlot(v: Variant, defs: seq<(string, Json)>, st: PlanState, key: string, k: string)
    requires IsValidTypeName(k) && key !in st.renames
    requires forall k' :: k' in PlanStep(v, defs, st, key).renames ==> PlanStep(v, defs, st, key).renames[k'] != k
    ensures forall k' :: k' in st.renames ==> st.renames[k'] != k
    ensures Lookup(PlanStep(v, defs, st, key).slots, k) == Lookup(st.slots, k)
  {
    var after := PlanStep(v, defs, st, key);
    if !IsValidTypeName(key) {
      var name := NewName(v, defs, st.slots, st.count, key);
      var from := match Lookup(st.slots, key) case Some(k) => k case None => key;
      PutLaws(st.slots, name, from);
      RemoveLaws(Put(st.slots, name, from), key);
      assert after.renames == st.renames[key := name];
      assert name != k by { assert after.renames[key] == name; }
      forall k' | k' in st.renames ensures st.renames[k'] != k {
        assert after.renames[k'] == st.renames[k'];
      }
      assert key != k;
    }
  }

  // ----- the whole pass -----

  /** Every collected ref resolves inside `#/definitions/`. */
  predicate AllResolvable(found: seq<Json>) {
    forall m :: 0 <= m < |found| ==> RefKey(found[m]).Ok?
  }

  /** The pass throws exactly when the document is null or undefined, when
      the lenient walk meets a null, or when some ref does not start with
      `#/definitions/`; in the last case the exception is the first such
      ref's. */
  lemma FixRefNameThrows(v: Variant, data: Json)
    ensures FixRefNameSpec(v, data).1.Some? <==>
              data == JNull || data == JUndef || FindRef(data, Deep(v)).None?
              || !AllResolvable(FindRef(data, Deep(v)).value)
    ensures data != JNull && data != JUndef && FindRef(data, Deep(v)).Some? ==>
              var found := FindRef(data, Deep(v)).value;
              forall m :: 0 <= m < |found| && RefKey(found[m]).Err? && AllResolvable(found[..m]) ==>
                FixRefNameSpec(v, data).1 == Some(RefKey(found[m]).error)
  {
    if data != JNull && data != JUndef && FindRef(data, Deep(v)).Some? {
      var found := FindRef(data, Deep(v)).value;
      var bad := FirstBad(found, 0);
      if bad < |found| {
        SpecWhenBad(v, data, found);
      } else {
        SpecWhenResolved(v, data, found);
      }
      forall m | 0 <= m < |found| && RefKey(found[m]).Err? && AllResolvable(found[..m])
        ensures bad == m
      {
        assert forall i :: 0 <= i < m ==> RefKey(found[i]).Ok? by {
          forall i | 0 <= i < m ensures RefKey(found[i]).Ok? {
            assert found[..m][i] == found[i];
          }
        }
        FirstBadSkips(found, 0, m);
      }
    }
  }

  /** Fixing a fixed document changes nothing: when every ref names an
      existing definition and every definition key is valid, the document
      comes back as it was and nothing is thrown. */
  lemma FixRefNameIdentity(v: Variant, data: Json)
    requires data != JNull && data != JUndef && FindRef(data, Deep(v)).Some?
    requires forall m :: 0 <= m < |FindRef(data, Deep(v)).value| ==>
               RefKey(FindRef(data, Deep(v)).value[m]).Ok?
               && RefKey(FindRef(data, Deep(v)).value[m]).value in Keys(Definitions(data))
    requires forall k :: k in Keys(Definitions(data)) ==> IsValidTypeName(k)
    ensures FixRefNameSpec(v, data) == (data, None)
  {
    var found := FindRef(data, Deep(v)).value;
    var defs := Definitions(data);
    var keys := Keys(defs);
    var order := Distinct(keys, |keys|);
    FirstBadSkips(found, 0, |found|);
    assert keys[..|keys|] == keys;
    PlanRenamed(v, defs, order, |order|);
    PlanCount(v, defs, order, |order|);
    var st := FinalPlan(v, data);
    assert st == PlanUpTo(v, defs, order, |order|);
    assert st.renames == map[];
    NoInvalid(order, |order|);
    assert Stage(found, keys, st.renames, |found|) == found;
    ReplaceRefsIdentity(data, Deep(v));
    SpecWhenResolved(v, data, found);
  }

  lemma {:induction false} NoInvalid(keys: seq<string>, n: nat)
    requires n <= |keys|
    requires forall i :: 0 <= i < n ==> IsValidTypeName(keys[i])
    ensures CountInvalid(keys, n) == 0
  {
    if n > 0 {
      NoInvalid(keys, n - 1);
    }
  }

  // ----- the document the pass returns -----

  /** One rename in terms of the slots: the key is gone, the new name holds
      the key's slot, and every other name keeps its slot. */
  lemma StepSlots(v: Variant, defs: seq<(string, Json)>, st: PlanState, key: string)
    requires !IsValidTypeName(key)
    ensures var after := PlanStep(v, defs, st, key);
            var name := NewName(v, defs, st.slots, st.count, key);
            var from := match Lookup(st.slots, key) case Some(k) => k case None => key;
            after.renames == st.renames[key := name]
            && (forall x :: x in Keys(after.slots) <==> (x in Keys(st.slots) || x == name) && x != key)
            && (name != key ==> Lookup(after.slots, name) == Some(from))
            && (forall x :: x != key && x != name ==> Lookup(after.slots, x) == Lookup(st.slots, x))
  {
    var name := NewName(v, defs, st.slots, st.count, key);
    var from := match Lookup(st.slots, key) case Some(k) => k case None => key;
    PutLaws(st.slots, name, from);
    RemoveLaws(Put(st.slots, name, from), key);
  }

  /** Until its own turn an invalid key keeps its own definition: earlier
      steps only add valid names and delete other keys. */
  lemma {:induction false} PendingKeyStays(v: Variant, defs: seq<(string, Json)>, order: seq<string>, n: nat, k: string)
    requires n <= |order|
    requires v.Legacy? || IsValidTypeName(v.renamePrefix)
    requires k in Keys(defs) && !IsValidTypeName(k) && k !in order[..n]
    ensures Lookup(PlanUpTo(v, defs, order, n).slots, k) == Some(k)
  {
    if n == 0 {
      InitialSlotsLookup(Keys(defs), k);
    } else {
      var before := PlanUpTo(v, defs, order, n - 1);
      var key := order[n - 1];
      assert order[..n] == order[..n - 1] + [key];
      assert PlanUpTo(v, defs, order, n) == PlanStep(v, defs, before, key);
      PendingKeyStays(v, defs, order, n - 1, k);
      if !IsValidTypeName(key) {
        StepSlots(v, defs, before, key);
      }
    }
  }

  /** A rename, once made, is never changed by a later step. */
  lemma {:induction false} RenamesStable(v: Variant, defs: seq<(string, Json)>, order: seq<string>, n: nat, m: nat)
    requires n <= m <= |order|
    requires forall i, j :: 0 <= i < j < |order| ==> order[i] != order[j]
    ensures forall k :: k in PlanUpTo(v, defs, order, n).renames ==>
              k in PlanUpTo(v, defs, order, m).renames
              && PlanUpTo(v, defs, order, m).renames[k] == PlanUpTo(v, defs, order, n).renames[k]
    decreases m - n
  {
    if n < m {
      RenamesStable(v, defs, order, n, m - 1);
      PlanRenamed(v, defs, order, n);
      var key := order[m - 1];
      var before := PlanUpTo(v, defs, order, m - 1);
      assert PlanUpTo(v, defs, order, m) == PlanStep(v, defs, before, key);
      forall k | k in PlanUpTo(v, defs, order, n).renames ensures k != key {
        var i :| 0 <= i < n && order[..n][i] == k;
        assert order[i] == k;
      }
    }
  }

  /** The name the `n`-th key would be given at its step. */
  function StepName(v: Variant, defs: seq<(string, Json)>, order: seq<string>, n: nat): string
    requires n < |order|
  {
    var before := PlanUpTo(v, defs, order, n);
    NewName(v, defs, before.slots, before.count, order[n])
  }

  /** After the `n`-th key is renamed, its new name keeps pointing at the
      key's schema and the key stays deleted, as long as no later rename
      picks the same name. */
  lemma {:induction false} RenameKept(v: Variant, defs: seq<(string, Json)>, order: seq<string>, n: nat, m: nat)
    requires n < m <= |order|
    requires v.Legacy? || IsValidTypeName(v.renamePrefix)
    requires forall i, j :: 0 <= i < j < |order| ==> order[i] != order[j]
    requires forall k :: k in order ==> k in Keys(defs)
    requires !IsValidTypeName(order[n])
    requires forall p :: n < p < |order| && !IsValidTypeName(order[p]) ==>
               StepName(v, defs, order, p) != StepName(v, defs, order, n)
    ensures Lookup(PlanUpTo(v, defs, order, m).slots, StepName(v, defs, order, n)) == Some(order[n])
    ensures order[n] !in Keys(PlanUpTo(v, defs, order, m).slots)
    decreases m
  {
    if m == n + 1 {
      RenameKeptBase(v, defs, order, n);
    } else {
      RenameKept(v, defs, order, n, m - 1);
      assert order[m - 1] != order[n] by { assert n < m - 1; }
      RenameKeptStep(v, defs, order, m, order[n], StepName(v, defs, order, n));
    }
  }

  lemma RenameKeptBase(v: Variant, defs: seq<(string, Json)>, order: seq<string>, n: nat)
    requires n < |order|
    requires v.Legacy? || IsValidTypeName(v.renamePrefix)
    requires forall i, j :: 0 <= i < j < |order| ==> order[i] != order[j]
    requires forall k :: k in order ==> k in Keys(defs)
    requires !IsValidTypeName(order[n])
    ensures Lookup(PlanUpTo(v, defs, order, n + 1).slots, StepName(v, defs, order, n)) == Some(order[n])
    ensures order[n] !in Keys(PlanUpTo(v, defs, order, n + 1).slots)
  {
    var k := order[n];
    var before := PlanUpTo(v, defs, order, n);
    assert PlanUpTo(v, defs, order, n + 1) == PlanStep(v, defs, before, k);
    assert k !in order[..n] by {
      forall i | 0 <= i < n ensures order[..n][i] != k { assert order[..n][i] == order[i]; }
    }
    PendingKeyStays(v, defs, order, n, k);
    StepSlots(v, defs, before, k);
  }

  /** One later step keeps a moved name holding its key, when that step
      does not pick the same name. */
  lemma RenameKeptStep(v: Variant, defs: seq<(string, Json)>, order: seq<string>, m: nat, k: string, name: string)
    requires 0 < m <= |order| && order[m - 1] != k
    requires v.Legacy? || IsValidTypeName(v.renamePrefix)
    requires !IsValidTypeName(k) && IsValidTypeName(name)
    requires !IsValidTypeName(order[m - 1]) ==> StepName(v, defs, order, m - 1) != name
    requires Lookup(PlanUpTo(v, defs, order, m - 1).slots, name) == Some(k)
    requires k !in Keys(PlanUpTo(v, defs, order, m - 1).slots)
    ensures Lookup(PlanUpTo(v, defs, order, m).slots, name) == Some(k)
    ensures k !in Keys(PlanUpTo(v, defs, order, m).slots)
  {
    PlanUpToStep(v, defs, order, m);
    KeptStep(v, defs, PlanUpTo(v, defs, order, m - 1), order[m - 1], k, name);
  }

  lemma PlanUpToStep(v: Variant, defs: seq<(string, Json)>, order: seq<string>, m: nat)
    requires 0 < m <= |order|
    ensures PlanUpTo(v, defs, order, m) == PlanStep(v, defs, PlanUpTo(v, defs, order, m - 1), order[m - 1])
  {
  }

  /** The name chosen at step `n` is the key's rename in the final plan. */
  lemma NewNameIsFinal(v: Variant, defs: seq<(string, Json)>, order: seq<string>, n: nat)
    requires n < |order| && !IsValidTypeName(order[n])
    requires forall i, j :: 0 <= i < j < |order| ==> order[i] != order[j]
    ensures var final := PlanUpTo(v, defs, order, |order|);
            order[n] in final.renames && final.renames[order[n]] == StepName(v, defs, order, n)
  {
    PlanUpToStep(v, defs, order, n + 1);
    RenamesStable(v, defs, order, n + 1, |order|);
  }

  /** A step leaves a moved name alone unless it renames to the same name. */
  lemma KeptStep(v: Variant, defs: seq<(string, Json)>, before: PlanState, key: string, k: string, name: string)
    requires v.Legacy? || IsValidTypeName(v.renamePrefix)
    requires Lookup(before.slots, name) == Some(k) && k !in Keys(before.slots)
    requires key != k && !IsValidTypeName(k) && IsValidTypeName(name)
    requires !IsValidTypeName(key) ==> NewName(v, defs, before.slots, before.count, key) != name
    ensures Lookup(PlanStep(v, defs, before, key).slots, name) == Some(k)
    ensures k !in Keys(PlanStep(v, defs, before, key).slots)
  {
    if !IsValidTypeName(key) {
      StepSlots(v, defs, before, key);
    }
  }

  /** In the final plan a renamed key whose new name no other rename took
      is gone, and its new name holds the key. */
  lemma FinalSlots(v: Variant, defs: seq<(string, Json)>, order: seq<string>, k: string)
    requires v.Legacy? || IsValidTypeName(v.renamePrefix)
    requires forall i, j :: 0 <= i < j < |order| ==> order[i] != order[j]
    requires forall k :: k in order ==> k in Keys(defs)
    requires k in PlanUpTo(v, defs, order, |order|).renames
    requires var final := PlanUpTo(v, defs, order, |order|);
             forall k' :: k' in final.renames && k' != k ==> final.renames[k'] != final.renames[k]
    ensures var final := PlanUpTo(v, defs, order, |order|);
            Lookup(final.slots, final.renames[k]) == Some(k) && k !in Keys(final.slots)
  {
    PlanRenamed(v, defs, order, |order|);
    assert order[..|order|] == order;
    var n :| 0 <= n < |order| && order[n] == k;
    NewNameIsFinal(v, defs, order, n);
    forall p | n < p < |order| && !IsValidTypeName(order[p])
      ensures StepName(v, defs, order, p) != StepName(v, defs, order, n)
    {
      NewNameIsFinal(v, defs, order, p);
    }
    RenameKept(v, defs, order, n, |order|);
  }

  /** `definitions` rebuilt from the slots reads each current name from the
      original key it holds. */
  lemma {:induction false} RebuiltLookup(defs: seq<(string, Json)>, slots: seq<(string, string)>, name: string)
    ensures Lookup(Rebuilt(defs, slots), name)
         == match Lookup(slots, name)
            case None => None
            case Some(k) => Some(Get(JObj(defs), k))
  {
    if slots != [] && slots[0].0 != name {
      RebuiltLookup(defs, slots[1..], name);
    }
  }

  lemma {:induction false} CountZero(keys: seq<string>, n: nat)
    requires n <= |keys| && CountInvalid(keys, n) == 0
    ensures forall i :: 0 <= i < n ==> IsValidTypeName(keys[i])
  {
    if n > 0 {
      CountZero(keys, n - 1);
    }
  }

  /** Where the pass does not throw, it returns the tree with every collected
      ref written back in its place and, after a rename, `definitions` rebuilt
      from the plan. */
  lemma FixRefNameOk(v: Variant, data: Json)
    requires FixRefNameSpec(v, data).1.None?
    ensures data != JNull && data != JUndef && FindRef(data, Deep(v)).Some?
    ensures AllResolvable(FindRef(data, Deep(v)).value)
    ensures var found := FindRef(data, Deep(v)).value;
            var st := FinalPlan(v, data);
            FixRefNameSpec(v, data).0
              == Assemble(ReplaceRefs(data, Deep(v), Stage(found, Keys(Definitions(data)), st.renames, |found|)),
                          st.slots, st.count)
  {
    var found := FindRef(data, Deep(v)).value;
    FirstBadSkips(found, 0, FirstBad(found, 0));
  }

  /** The document `fixRefName` leaves behind when it does not throw. Walking
      it meets, in the places of the collected refs, the edited refs: a ref
      to a renamed key now names the key's new name. Without a rename the
      document is just that; after one, only `definitions` differs, rebuilt
      from the plan, and for a key whose new name no other rename took,
      `definitions[newName]` holds the schema that was under the key, which
      is gone. */
  lemma FixRefNameResult(v: Variant, data: Json)
    requires v.Legacy? || IsValidTypeName(v.renamePrefix)
    requires FixRefNameSpec(v, data).1.None?
    ensures data != JNull && data != JUndef && FindRef(data, Deep(v)).Some?
    ensures var found := FindRef(data, Deep(v)).value;
            var st := FinalPlan(v, data);
            var keys := Keys(Definitions(data));
            var items := Stage(found, keys, st.renames, |found|);
            var wb := ReplaceRefs(data, Deep(v), items);
            var out := FixRefNameSpec(v, data).0;
            FindRef(wb, Deep(v)) == FindRefAll(items, Deep(v))
            && (forall m, k :: 0 <= m < |found| && RefKey(found[m]) == Ok(k) && k in st.renames ==>
                  RefKey(items[m]) == Ok(st.renames[k]))
            && (st.count == 0 ==> out == wb)
            && (st.count > 0 ==>
                  wb.JObj? && out.JObj?
                  && Definitions(out) == Rebuilt(Definitions(wb), st.slots)
                  && forall x :: x != "definitions" ==> Get(out, x) == Get(wb, x))
            && (forall k :: k in st.renames && (forall k' :: k' in st.renames && k' != k ==> st.renames[k'] != st.renames[k]) ==>
                  k !in Keys(Definitions(out))
                  && Lookup(Definitions(out), st.renames[k]) == Some(Get(JObj(Definitions(wb)), k)))
  {
    FixRefNameOk(v, data);
    var found := FindRef(data, Deep(v)).value;
    var st := FinalPlan(v, data);
    var items := Stage(found, Keys(Definitions(data)), st.renames, |found|);
    ReplaceRefsFound(data, Deep(v), items);
    RenamedRefs(v, data);
    if st.count > 0 {
      AssembledDocument(v, data);
    }
    forall k | k in st.renames && (forall k' :: k' in st.renames && k' != k ==> st.renames[k'] != st.renames[k])
      ensures k !in Keys(Definitions(FixRefNameSpec(v, data).0))
      ensures Lookup(Definitions(FixRefNameSpec(v, data).0), st.renames[k])
           == Some(Get(JObj(Definitions(ReplaceRefs(data, Deep(v), items))), k))
    {
      MovedDefinition(v, data, k);
    }
  }

  /** Each collected ref to a renamed key names the key's new name. */
  lemma RenamedRefs(v: Variant, data: Json)
    requires data != JNull && data != JUndef && FindRef(data, Deep(v)).Some?
    ensures var found := FindRef(data, Deep(v)).value;
            var st := FinalPlan(v, data);
            var items := Stage(found, Keys(Definitions(data)), st.renames, |found|);
            forall m, k :: 0 <= m < |found| && RefKey(found[m]) == Ok(k) && k in st.renames ==>
              RefKey(items[m]) == Ok(st.renames[k])
  {
    var found := FindRef(data, Deep(v)).value;
    var st := FinalPlan(v, data);
    var defs := Definitions(data);
    var keys := Keys(defs);
    var order := Distinct(keys, |keys|);
    PlanRenamed(v, defs, order, |order|);
    assert order[..|order|] == order;
    assert keys[..|keys|] == keys;
    forall m, k | 0 <= m < |found| && RefKey(found[m]) == Ok(k) && k in st.renames
      ensures RefKey(Stage(found, keys, st.renames, |found|)[m]) == Ok(st.renames[k])
    {
      EditedRef(found[m], keys, st.renames);
    }
  }

  /** A renamed key whose new name no other rename took: the key is gone
      from the returned `definitions`, and the new name holds what the
      written-back `definitions` held under the key. */
  lemma MovedDefinition(v: Variant, data: Json, k: string)
    requires v.Legacy? || IsValidTypeName(v.renamePrefix)
    requires FixRefNameSpec(v, data).1.None?
    requires k in FinalPlan(v, data).renames
    requires forall k' :: k' in FinalPlan(v, data).renames && k' != k ==>
               FinalPlan(v, data).renames[k'] != FinalPlan(v, data).renames[k]
    ensures data != JNull && data != JUndef && FindRef(data, Deep(v)).Some?
    ensures var found := FindRef(data, Deep(v)).value;
            var st := FinalPlan(v, data);
            var wb := ReplaceRefs(data, Deep(v), Stage(found, Keys(Definitions(data)), st.renames, |found|));
            var out := FixRefNameSpec(v, data).0;
            k !in Keys(Definitions(out))
            && Lookup(Definitions(out), st.renames[k]) == Some(Get(JObj(Definitions(wb)), k))
  {
    FixRefNameOk(v, data);
    var found := FindRef(data, Deep(v)).value;
    var st := FinalPlan(v, data);
    var defs := Definitions(data);
    var keys := Keys(defs);
    var order := Distinct(keys, |keys|);
    var wb := ReplaceRefs(data, Deep(v), Stage(found, keys, st.renames, |found|));
    assert keys[..|keys|] == keys;
    FinalSlots(v, defs, order, k);
    RenamedCounted(v, defs, order, k);
    AssembledDocument(v, data);
    RebuiltLookup(Definitions(wb), st.slots, st.renames[k]);
  }

  /** A rename is counted. */
  lemma RenamedCounted(v: Variant, defs: seq<(string, Json)>, order: seq<string>, k: string)
    requires k in PlanUpTo(v, defs, order, |order|).renames
    ensures PlanUpTo(v, defs, order, |order|).count > 0
  {
    PlanRenamed(v, defs, order, |order|);
    PlanCount(v, defs, order, |order|);
    assert order[..|order|] == order;
    if CountInvalid(order, |order|) == 0 {
      CountZero(order, |order|);
    }
  }

  /** After a rename the written-back document is an object and the pass
      replaces only its `definitions`. */
  lemma AssembledDocument(v: Variant, data: Json)
    requires FixRefNameSpec(v, data).1.None? && FinalPlan(v, data).count > 0
    ensures var found := FindRef(data, Deep(v)).value;
            var st := FinalPlan(v, data);
            var wb := ReplaceRefs(data, Deep(v), Stage(found, Keys(Definitions(data)), st.renames, |found|));
            var out := FixRefNameSpec(v, data).0;
            wb.JObj? && out.JObj?
            && Definitions(out) == Rebuilt(Definitions(wb), st.slots)
            && forall x :: x != "definitions" ==> Get(out, x) == Get(wb, x)
  {
    FixRefNameOk(v, data);
    var found := FindRef(data, Deep(v)).value;
    var st := FinalPlan(v, data);
    var keys := Keys(Definitions(data));
    var wb := ReplaceRefs(data, Deep(v), Stage(found, keys, st.renames, |found|));
    PlannedKeys(v, data);
    DefinitionsOwner(data);
    WrittenBackObject(data, Deep(v), found, keys, st.renames);
    AssembleLaws(wb, st.slots, st.count);
  }

  /** After a rename only `definitions` is replaced, by the rebuilt one. */
  lemma AssembleLaws(d: Json, slots: seq<(string, string)>, count: nat)
    requires d.JObj? && count > 0
    ensures Assemble(d, slots, count).JObj?
    ensures Definitions(Assemble(d, slots, count)) == Rebuilt(Definitions(d), slots)
    ensures forall x :: x != "definitions" ==> Get(Assemble(d, slots, count), x) == Get(d, x)
  {
    var rebuilt := Rebuilt(Definitions(d), slots);
    var out := JObj(Put(d.fields, "definitions", JObj(rebuilt)));
    assert Assemble(d, slots, count) == out;
    PutLaws(d.fields, "definitions", JObj(rebuilt));
    ObjectDefinitions(out, rebuilt);
  }

  lemma ObjectDefinitions(data: Json, fs: seq<(string, Json)>)
    requires Get(data, "definitions") == JObj(fs)
    ensures Definitions(data) == fs
  {
  }

  /** A rename needs a key of `definitions`. */
  lemma PlannedKeys(v: Variant, data: Json)
    requires FinalPlan(v, data).count > 0
    ensures |Definitions(data)| > 0
  {
    var defs := Definitions(data);
    var keys := Keys(defs);
    var order := Distinct(keys, |keys|);
    PlanCount(v, defs, order, |order|);
    assert order[0] in keys[..|keys|];
  }

  /** Only an object has a non-empty `definitions`. */
  lemma DefinitionsOwner(data: Json)
    requires |Definitions(data)| > 0
    ensures data.JObj?
  {
    assert ParseIndex("definitions") == None by { assert !IsDigit("definitions"[0]); }
  }

  /** Writing edited refs back into an object gives an object. */
  lemma WrittenBackObject(data: Json, deep: bool, found: seq<Json>, keys: seq<string>, renames: map<string, string>)
    requires data.JObj? && FindRef(data, deep) == Some(found)
    ensures ReplaceRefs(data, deep, Stage(found, keys, renames, |found|)).JObj?
  {
    if IsRefNode(data) {
      assert found[0] == data;
    }
  }

  /** fixRefSwagger's rule can give two keys the same new name: `A«B»` and
      `A_B»` both become `A_B`, and the second move overwrites the first,
      so only the second schema is left. */
  lemma LegacyRenamesCollide()
    ensures var a, b := "A\U{AB}B\U{BB}", "A_B\U{BB}";
            var defs := [(a, JNum(1)), (b, JNum(2))];
            var final := PlanUpTo(Legacy, defs, [a, b], 2);
            final.renames == map[a := "A_B", b := "A_B"] && final.slots == [("A_B", b)]
  {
    var a, b := "A\U{AB}B\U{BB}", "A_B\U{BB}";
    var defs := [(a, JNum(1)), (b, JNum(2))];
    var st0 := PlanUpTo(Legacy, defs, [a, b], 0);
    assert st0.slots == [(a, a), (b, b)];
    var st1 := PlanUpTo(Legacy, defs, [a, b], 1);
    assert st1 == PlanStep(Legacy, defs, st0, a);
    LegacyCollideFirst(defs, st0);
    var st2 := PlanUpTo(Legacy, defs, [a, b], 2);
    assert st2 == PlanStep(Legacy, defs, st1, b);
    LegacyCollideSecond(defs, st1);
  }

  lemma LegacyCollideFirst(defs: seq<(string, Json)>, st0: PlanState)
    requires st0 == PlanState([("A\U{AB}B\U{BB}", "A\U{AB}B\U{BB}"), ("A_B\U{BB}", "A_B\U{BB}")], 0, map[])
    ensures var a, b := "A\U{AB}B\U{BB}", "A_B\U{BB}";
            PlanStep(Legacy, defs, st0, a) == PlanState([(b, b), ("A_B", a)], 1, map[a := "A_B"])
  {
    var a, b := "A\U{AB}B\U{BB}", "A_B\U{BB}";
    assert !IsWordChar(a[1]);
    LegacyNameOfFirst();
    assert NewName(Legacy, defs, st0.slots, 0, a) == "A_B";
    assert Put(st0.slots, "A_B", a) == [(a, a), (b, b), ("A_B", a)] by {
      assert Put([(b, b)], "A_B", a) == [(b, b)] + Put([], "A_B", a);
    }
    assert Remove([(a, a), (b, b), ("A_B", a)], a) == [(b, b), ("A_B", a)] by {
      assert [(a, a), (b, b), ("A_B", a)][1..] == [(b, b), ("A_B", a)];
      assert Remove([("A_B", a)], a) == [("A_B", a)] + Remove([], a);
      assert Remove([(b, b), ("A_B", a)], a) == [(b, b)] + Remove([("A_B", a)], a);
    }
  }

  lemma LegacyCollideSecond(defs: seq<(string, Json)>, st1: PlanState)
    requires var a, b := "A\U{AB}B\U{BB}", "A_B\U{BB}";
             st1 == PlanState([(b, b), ("A_B", a)], 1, map[a := "A_B"])
    ensures var a, b := "A\U{AB}B\U{BB}", "A_B\U{BB}";
            PlanStep(Legacy, defs, st1, b) == PlanState([("A_B", b)], 2, map[a := "A_B", b := "A_B"])
  {
    var a, b := "A\U{AB}B\U{BB}", "A_B\U{BB}";
    assert !IsWordChar(b[3]);
    LegacyNameOfSecond();
    assert NewName(Legacy, defs, st1.slots, 1, b) == "A_B";
    assert Put(st1.slots, "A_B", b) == [(b, b), ("A_B", b)] by {
      assert Put([("A_B", a)], "A_B", b) == [("A_B", b)] + Replaced([], "A_B", b);
    }
    assert Remove([(b, b), ("A_B", b)], b) == [("A_B", b)] by {
      assert [(b, b), ("A_B", b)][1..] == [("A_B", b)];
      assert Remove([("A_B", b)], b) == [("A_B", b)] + Remove([], b);
    }
  }

  lemma LegacyNameOfFirst()
    ensures ReplaceFirstChar(ReplaceFirstChar("A\U{AB}B\U{BB}", '\U{AB}', "_"), '\U{BB}', "") == "A_B"
    ensures IsValidTypeName("A_B")
  {
    var a := "A\U{AB}B\U{BB}";
    assert ReplaceFirstChar(a, '\U{AB}', "_") == "A_B\U{BB}" by {
      assert a[1..] == "\U{AB}B\U{BB}" && a[1..][1..] == "B\U{BB}";
    }
    var b := "A_B\U{BB}";
    assert b[1..] == "_B\U{BB}" && b[1..][1..] == "B\U{BB}" && b[1..][1..][1..] == "\U{BB}";
  }

  lemma LegacyNameOfSecond()
    ensures ReplaceFirstChar(ReplaceFirstChar("A_B\U{BB}", '\U{AB}', "_"), '\U{BB}', "") == "A_B"
  {
    var b := "A_B\U{BB}";
    ReplaceFirstCharNone(b, '\U{AB}', "_");
    assert b[1..] == "_B\U{BB}" && b[1..][1..] == "B\U{BB}" && b[1..][1..][1..] == "\U{BB}";
  }
}
