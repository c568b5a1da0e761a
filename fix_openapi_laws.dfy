/** What `fixTag` and `fixOperationId` guarantee, stated over their
    one-step functions. */
module FixOpenApiLaws {
  import opened JsonModel
  import opened Text
  import opened FixOpenApi

  // ----- tag names -----

  /** The replacement for an invalid tag name is always valid and has no
      spaces: the description without spaces when that is valid, else
      `UNKNOWN`. */
  lemma NewTagNameValid(description: string)
    ensures IsValidTypeName(NewTagName(description))
    ensures ' ' !in NewTagName(description)
    ensures IsValidTypeName(RemoveSpaces(description)) ==> NewTagName(description) == RemoveSpaces(description)
    ensures !IsValidTypeName(RemoveSpaces(description)) ==> NewTagName(description) == UnknownTag
  {
    var d := RemoveSpaces(description);
    assert IsValidTypeName(UnknownTag) by {
      assert forall i :: 0 <= i < |UnknownTag| ==> IsWordChar(UnknownTag[i]);
    }
  }

  /** The TagObject the callback works on carries the tag name it was
      called with: `find` matched it, or it was pushed with that name. */
  lemma TagEntryName(items: seq<Json>, tagName: Json)
    requires TagEntry(items, tagName).Ok?
    ensures var e := TagEntry(items, tagName).value;
            ToStr(Get(e.0[e.1], "name")) == ToStr(tagName)
    ensures var e := TagEntry(items, tagName).value;
            FindTag(items, tagName, 0).value.None? ==> e.0 == items + [NewTagObject(tagName)]
    ensures var e := TagEntry(items, tagName).value;
            !IsValidTypeName(ToStr(tagName)) ==> e.0[e.1].JObj?
  {
    var e := TagEntry(items, tagName).value;
    if e.1 == |items| {
      assert e.0[e.1] == NewTagObject(tagName);
    } else if !e.0[e.1].JObj? {
      var t := e.0[e.1];
      assert Get(t, "name") == JUndef by {
        assert ParseIndex("name") == None by { assert !IsDigit("name"[0]); }
      }
      assert IsValidTypeName("undefined") by {
        assert forall i :: 0 <= i < |"undefined"| ==> IsWordChar("undefined"[i]);
      }
    }
  }

  /** A name with no TagObject adds `{name, description: name}` at the end
      of `data.tags`; the entries before it stay. */
  lemma MapTagPushes(st: TagState, tagName: Json)
    requires st.tags.JArr? && !(ToStr(tagName) in st.renamed && st.renamed[ToStr(tagName)] != "")
    requires FindTag(st.tags.items, tagName, 0) == Ok(None)
    requires MapTag(st, tagName).Ok?
    ensures var after := MapTag(st, tagName).value.0.tags;
            after.JArr? && |after.items| == |st.tags.items| + 1
            && after.items[..|st.tags.items|] == st.tags.items
  {
    var items := st.tags.items;
    assert TagEntry(items, tagName) == Ok((items + [NewTagObject(tagName)], |items|));
    var after := MapTag(st, tagName).value.0.tags.items;
    assert after[..|items|] == items;
  }

  /** A tag name that is already valid maps to `undefined`, since the
      callback returns nothing in that case; `finalNameMap` is unchanged. */
  lemma MapTagValidIsUndefined(st: TagState, tagName: Json)
    requires !(ToStr(tagName) in st.renamed && st.renamed[ToStr(tagName)] != "")
    requires MapTag(st, tagName).Ok? && IsValidTypeName(ToStr(tagName))
    ensures MapTag(st, tagName).value.1 == JUndef
    ensures MapTag(st, tagName).value.0.renamed == st.renamed
  {
    TagEntryName(st.tags.items, tagName);
  }

  /** An invalid, unremembered tag name maps to its replacement: the
      TagObject gets the new name and keeps the old one as description, and
      `finalNameMap` remembers old to new. */
  lemma MapTagRenames(st: TagState, tagName: Json)
    requires !(ToStr(tagName) in st.renamed && st.renamed[ToStr(tagName)] != "")
    requires MapTag(st, tagName).Ok? && !IsValidTypeName(ToStr(tagName))
    ensures var (st', v) := MapTag(st, tagName).value;
            v.JStr? && IsValidTypeName(v.s)
            && st'.renamed == st.renamed[ToStr(tagName) := v.s]
            && st'.tags.JArr?
            && exists j :: 0 <= j < |st'.tags.items|
                 && Get(st'.tags.items[j], "name") == v && ToStr(Get(st'.tags.items[j], "description")) == ToStr(tagName)
  {
    var e := TagEntry(st.tags.items, tagName).value;
    TagEntryName(st.tags.items, tagName);
    var t := e.0[e.1];
    var oldName := Get(t, "name");
    var description := Get(t, "description");
    var newName := NewTagName(description.s);
    var t1 := Set(t, "description", oldName);
    var t' := Set(t1, "name", JStr(newName));
    assert MapTag(st, tagName)
        == Ok((TagState(JArr(e.0[e.1 := t']), st.renamed[ToStr(oldName) := newName]), JStr(newName)));
    NewTagNameValid(description.s);
    RenamedEntry(t, oldName, newName);
    assert e.0[e.1 := t'][e.1] == t';
  }

  /** The TagObject after `description = name; name = newName`. */
  lemma RenamedEntry(t: Json, oldName: Json, newName: string)
    requires t.JObj?
    ensures var t' := Set(Set(t, "description", oldName), "name", JStr(newName));
            Get(t', "name") == JStr(newName) && Get(t', "description") == oldName
  {
    SetGet(t, "description", oldName);
    SetGet(Set(t, "description", oldName), "name", JStr(newName));
  }

  /** `finalNameMap` makes the callback consistent: once a name has been
      mapped to a non-empty new name, mapping it again gives the same new
      name and changes nothing. */
  lemma MapTagAgain(st: TagState, tagName: Json)
    requires MapTag(st, tagName).Ok?
    requires MapTag(st, tagName).value.1.JStr? && MapTag(st, tagName).value.1.s != ""
    ensures var (st', v) := MapTag(st, tagName).value;
            MapTag(st', tagName) == Ok((st', v))
  {
    if !(ToStr(tagName) in st.renamed && st.renamed[ToStr(tagName)] != "") {
      TagEntryName(st.tags.items, tagName);
    }
  }

  /** Each operation ends with one mapped entry per tag name, and with one
      entry when it had no tags of its own. */
  lemma FixOpTagsLength(st: TagState, op: Json)
    requires op.JObj? && FixOpTags(st, op).Ok?
    ensures var op' := FixOpTags(st, op).value.1;
            Get(op', "tags").JArr? && |Get(op', "tags").items| == |TagNames(op)|
            && (!IsNonEmptyArray(Get(op, "tags")) ==> |Get(op', "tags").items| == 1)
            && forall k :: k != "tags" ==> Get(op', k) == Get(op, k)
  {
    var mapped := MapTagsFrom(st, TagNames(op), 0).value;
    SetGet(op, "tags", JArr(mapped.1));
  }

  // ----- operation ids -----

  /** How often `k` occurs in `names`. */
  function Occurrences(names: seq<string>, k: string): nat {
    if names == [] then 0
    else Occurrences(names[..|names| - 1], k) + (if names[|names| - 1] == k then 1 else 0)
  }

  /** `tmpFunctionRD` holds, for every name, how often it has been seen. */
  ghost predicate Counts(counts: map<string, nat>, seen: seq<string>) {
    forall k :: (if k in counts then counts[k] else 0) == Occurrences(seen, k)
  }

  /** The operation's id as the counter sees it, `${operationId}`. */
  function IdKey(op: Json): string { ToStr(Get(op, "operationId")) }

  /** One step of the id pass: the counter goes on counting, the first
      operation with an id keeps it, and the operation that is the `n`-th
      repeat of an id (n = 1, 2, …) gets `<id>_<n>` with its other fields
      unchanged. */
  lemma NextIdCounts(counts: map<string, nat>, seen: seq<string>, op: Json)
    requires Counts(counts, seen) && op != JNull && op != JUndef
    ensures NextId(counts, op).Ok?
    ensures Counts(NextId(counts, op).value.0, seen + [IdKey(op)])
    ensures Occurrences(seen, IdKey(op)) == 0 ==> NextId(counts, op).value.1 == op
    ensures op.JObj? && Occurrences(seen, IdKey(op)) > 0 ==>
              var op' := NextId(counts, op).value.1;
              Get(op', "operationId") == JStr(IdKey(op) + "_" + NatToString(Occurrences(seen, IdKey(op))))
              && forall k :: k != "operationId" ==> Get(op', k) == Get(op, k)
  {
    var name := IdKey(op);
    var after := seen + [name];
    assert after[..|after| - 1] == seen;
    var c' := NextId(counts, op).value.0;
    forall k ensures (if k in c' then c'[k] else 0) == Occurrences(after, k) {
      assert (if k in counts then counts[k] else 0) == Occurrences(seen, k);
    }
    if op.JObj? && Occurrences(seen, name) > 0 {
      SetGet(op, "operationId", JStr(name + "_" + NatToString(counts[name])));
    }
  }

  /** Repeats of one id get pairwise different suffixes, none equal to the
      id itself. */
  lemma SuffixesDiffer(name: string, m: nat, n: nat)
    requires 0 < m < n
    ensures name + "_" + NatToString(m) != name + "_" + NatToString(n)
    ensures name + "_" + NatToString(m) != name
  {
    NatToStringInjective(m, n);
    var a := name + "_" + NatToString(m);
    var b := name + "_" + NatToString(n);
    assert a[|name| + 1..] == NatToString(m);
    assert b[|name| + 1..] == NatToString(n);
  }

  /** The suffixes are not checked against ids that already exist: the ids
      `a`, `a`, `a_1` come out as `a`, `a_1`, `a_1`. */
  lemma SuffixMayCollide()
    ensures var op1 := JObj([("operationId", JStr("a"))]);
            var op3 := JObj([("operationId", JStr("a_1"))]);
            var s1 := NextId(map[], op1).value;
            var s2 := NextId(s1.0, op1).value;
            var s3 := NextId(s2.0, op3).value;
            Get(s2.1, "operationId") == JStr("a_1") && Get(s3.1, "operationId") == JStr("a_1")
  {
    var op1 := JObj([("operationId", JStr("a"))]);
    var op3 := JObj([("operationId", JStr("a_1"))]);
    assert IdKey(op1) == "a";
    assert IdKey(op3) == "a_1";
    assert NextId(map[], op1) == Ok((map["a" := 1], op1));
    assert NatToString(1) == "1" by { assert DigitChar(1) == '1'; }
    assert "a" + "_" + NatToString(1) == "a_1";
    var renamed := JObj([("operationId", JStr("a_1"))]);
    assert Replaced(op1.fields[1..], "operationId", JStr("a_1")) == [];
    assert Put(op1.fields, "operationId", JStr("a_1")) == renamed.fields;
    assert Set(op1, "operationId", JStr("a_1")) == renamed;
    assert map["a" := 1]["a" := 1 + 1] == map["a" := 2];
    assert NextId(map["a" := 1], op1) == Ok((map["a" := 2], renamed));
    assert NextId(map["a" := 2], op3) == Ok((map["a" := 2, "a_1" := 1], op3));
  }
}
