/** What the two type mappers guarantee, and where they differ. */
module TypeMapLaws {
  import opened JsonModel
  import opened Text
  import opened TypeMap

  /** The schema's `type` is a string in `tags`. */
  predicate HasTag(schema: Json, tags: set<string>) {
    TypeTag(schema).JStr? && TypeTag(schema).s in tags
  }

  // ----- unions -----

  /** The quoted values, each between single quotes. */
  function Quotes(values: seq<Json>): seq<string> {
    seq(|values|, i requires 0 <= i < |values| => "'" + ToStr(values[i]) + "'")
  }

  /** A union lists every value, in order and with repeats: no values give
      the empty string, and each further value adds ` | '<value>'`. */
  lemma UnionAppend(values: seq<Json>, v: Json)
    ensures Union([]) == ""
    ensures Union([v]) == "'" + ToStr(v) + "'"
    ensures values != [] ==> Union(values + [v]) == Union(values) + " | " + "'" + ToStr(v) + "'"
  {
    assert Quotes([v]) == ["'" + ToStr(v) + "'"];
    if values != [] {
      assert Quotes(values + [v]) == Quotes(values) + ["'" + ToStr(v) + "'"];
      JoinAppend(Quotes(values), "'" + ToStr(v) + "'", " | ");
    }
  }

  /** A union of at least one value starts with a quote, so it is never
      empty and never one of the plain type names. */
  lemma UnionQuoted(values: seq<Json>)
    requires values != []
    ensures Union(values) != "" && Union(values)[0] == '\''
  {
    var qs := Quotes(values);
    assert qs[0][0] == '\'';
    if |qs| > 1 {
      assert Union(values) == qs[0] + " | " + Join(qs[1..], " | ");
    }
  }

  // ----- lib/util/getType.ts -----

  /** How many `array` levels wrap the schema. */
  function Depth(schema: Json): nat
    decreases schema != JUndef, schema
  {
    if TypeTag(schema) == JStr("array") then 1 + Depth(Items(schema)) else 0
  }

  /** The schema inside all `array` levels. */
  function Innermost(schema: Json): (r: Json)
    ensures TypeTag(r) != JStr("array")
    decreases schema != JUndef, schema
  {
    if TypeTag(schema) == JStr("array") then Innermost(Items(schema)) else schema
  }

  function Brackets(n: nat): string {
    if n == 0 then "" else Brackets(n - 1) + "[]"
  }

  /** Nested arrays map to the innermost schema's type followed by one `[]`
      per level; so `items` missing at any level gives `any[]…[]`. */
  lemma {:induction false} GetTypeNested(schema: Json)
    ensures GetType(schema) ==
              match GetType(Innermost(schema))
              case Ok(t) => Ok(t + Brackets(Depth(schema)))
              case Err(e) => Err(e)
    decreases schema != JUndef, schema
  {
    if TypeTag(schema) == JStr("array") {
      GetTypeNested(Items(schema));
      var d := Depth(Items(schema));
      assert Depth(schema) == d + 1 && Brackets(d + 1) == Brackets(d) + "[]";
      match GetType(Innermost(schema))
      case Ok(t) =>
        assert (t + Brackets(d)) + "[]" == t + (Brackets(d) + "[]");
      case Err(_) =>
    } else {
      match GetType(schema)
      case Ok(t) => assert t + Brackets(0) == t;
      case Err(_) =>
    }
  }

  /** The mapper throws only for a `type: 'enum'` schema, directly or inside
      arrays, whose `enum` is truthy but not an array. */
  lemma GetTypeThrows(schema: Json)
    ensures GetType(schema).Err? <==>
              TypeTag(Innermost(schema)) == JStr("enum")
              && Truthy(Get(Innermost(schema), "enum")) && !Get(Innermost(schema), "enum").JArr?
  {
    GetTypeNested(schema);
  }

  /** Each plain result comes from exactly its family of type names. */
  lemma GetTypeFamilies(schema: Json)
    ensures GetType(schema) == Ok("number") <==> HasTag(schema, NumberTypes)
    ensures GetType(schema) == Ok("Date") <==> HasTag(schema, DateTypes)
    ensures GetType(schema) == Ok("string") <==> HasTag(schema, StringTypes)
    ensures GetType(schema) == Ok("boolean") <==> TypeTag(schema) == JStr("boolean")
  {
    match TypeTag(schema)
    case JStr(t) =>
      if t == "enum" {
        EnumNotPlain(Get(schema, "enum"));
      } else if t == "array" && GetType(Items(schema)).Ok? {
        ArrayNotPlain(GetType(Items(schema)).value);
      }
    case _ =>
  }

  /** A union of `enum` values is quoted, so never a plain type name. */
  lemma EnumNotPlain(values: Json)
    ensures EnumUnion(values).Ok? ==>
              var u := EnumUnion(values).value;
              u != "number" && u != "Date" && u != "string" && u != "boolean"
  {
    if Truthy(values) && values.JArr? && values.items != [] {
      UnionQuoted(values.items);
    }
  }

  /** An array type ends in `[]`, so is never a plain type name. */
  lemma ArrayNotPlain(inner: string)
    ensures var s := inner + "[]";
            s != "number" && s != "Date" && s != "string" && s != "boolean"
  {
    var s := inner + "[]";
    assert s[|s| - 1] == ']';
  }

  /** `any` comes from unknown or non-string types, absent schemas, and
      `enum` schemas without a list; capital `Date` is unknown here. */
  lemma GetTypeAny(schema: Json)
    ensures !TypeTag(schema).JStr? ==> GetType(schema) == Ok("any")
    ensures GetType(JUndef) == Ok("any") && GetType(JNull) == Ok("any")
    ensures TypeTag(schema) == JStr("enum") && !Truthy(Get(schema, "enum")) ==> GetType(schema) == Ok("any")
    ensures TypeTag(schema) == JStr("Date") ==> GetType(schema) == Ok("any")
    ensures TypeTag(schema) == JStr("array") && Items(schema) == JUndef ==> GetType(schema) == Ok("any[]")
  {
    if TypeTag(schema) == JStr("array") && Items(schema) == JUndef {
      assert GetType(Items(schema)) == Ok("any");
      assert GetType(schema) == Ok("any" + "[]");
      assert "any" + "[]" == "any[]";
    }
  }

  // ----- lib/ServiceGenerator.ts -----

  /** The qualified name leaves out an empty namespace and an empty name. */
  lemma QualifiedParts(namespace: string, name: string)
    ensures namespace != "" && name != "" ==> Qualified(namespace, name) == namespace + "." + name
    ensures namespace == "" ==> Qualified(namespace, name) == name
    ensures name == "" ==> Qualified(namespace, name) == namespace
  {
    if namespace != "" && name != "" {
      assert [namespace, name][1..] == [name];
      assert Join([namespace, name], ".") == namespace + "." + Join([name], ".");
    }
  }

  /** A schema with a `$ref` `<path>/<name>` maps to `<namespace>.<name>`,
      or to the bare name without a namespace, whatever else it holds: the
      ref is named, never followed. */
  lemma ServiceTypeRef(schema: Json, namespace: string, path: string, name: string)
    requires schema.JObj? && Get(schema, "$ref") == JStr(path + "/" + name) && '/' !in name
    ensures ServiceType(schema, namespace) ==
              Ok(if namespace == "" then name else if name == "" then namespace else namespace + "." + name)
  {
    SplitAt(path, name, '/');
    SplitNone(name, '/');
    assert path + "/" + name == path + ['/'] + name;
    QualifiedParts(namespace, name);
  }

  /** Reading `$ref` comes first, so an absent schema throws, and so does an
      array without `items`. */
  lemma ServiceTypeThrows(schema: Json, namespace: string)
    ensures ServiceType(JUndef, namespace).Err? && ServiceType(JNull, namespace).Err?
    ensures (schema.JObj? && !Truthy(Get(schema, "$ref")) && TypeTag(schema) == JStr("array")
             && Items(schema) == JUndef) ==> ServiceType(schema, namespace).Err?
  {
  }

  /** In the string family a non-empty `enum` list gives the union of its
      values, and an empty or missing one gives `string`. */
  lemma ServiceTypeStringEnum(schema: Json, namespace: string)
    requires schema.JObj? && !Truthy(Get(schema, "$ref")) && HasTag(schema, StringTypes)
    ensures var values := Get(schema, "enum");
            (values.JArr? && values.items != [] ==> ServiceType(schema, namespace) == Ok(Union(values.items)))
            && (!Truthy(values) || values == JArr([]) ==> ServiceType(schema, namespace) == Ok("string"))
  {
    var values := Get(schema, "enum");
    if values.JArr? && values.items != [] {
      UnionQuoted(values.items);
    }
  }

  /** Arrays carry the namespace down to their items: an array of refs is
      an array of qualified names. */
  lemma ServiceTypeArrayOfRef(schema: Json, namespace: string, path: string, name: string)
    requires schema.JObj? && !Truthy(Get(schema, "$ref")) && TypeTag(schema) == JStr("array")
    requires Items(schema).JObj? && Get(Items(schema), "$ref") == JStr(path + "/" + name) && '/' !in name
    requires namespace != "" && name != ""
    ensures ServiceType(schema, namespace) == Ok(namespace + "." + name + "[]")
  {
    ServiceTypeRef(Items(schema), namespace, path, name);
  }

  // ----- the two mappers side by side -----

  /** Without a ref, the number, date, boolean and plain string families
      map the same way in both. */
  lemma MappersAgree(schema: Json, namespace: string)
    requires schema != JNull && schema != JUndef && !Truthy(Get(schema, "$ref"))
    requires HasTag(schema, NumberTypes + DateTypes + {"boolean"})
             || (HasTag(schema, StringTypes) && !Truthy(Get(schema, "enum")))
    ensures ServiceType(schema, namespace) == GetType(schema)
  {
  }

  /** Where they differ: capital `Date`, the `enum` type, a string enum and
      an absent schema. */
  lemma MappersDiffer(schema: Json, namespace: string)
    requires schema.JObj? && !Truthy(Get(schema, "$ref"))
    ensures TypeTag(schema) == JStr("Date") ==> GetType(schema) == Ok("any") && ServiceType(schema, namespace) == Ok("Date")
    ensures TypeTag(schema) == JStr("enum") ==> ServiceType(schema, namespace) == Ok("any")
    ensures TypeTag(schema) == JStr("string") && IsNonEmptyArray(Get(schema, "enum")) ==>
              GetType(schema) == Ok("string") && ServiceType(schema, namespace) != Ok("string")
    ensures GetType(JUndef) == Ok("any") && ServiceType(JUndef, namespace).Err?
  {
    if TypeTag(schema) == JStr("string") && IsNonEmptyArray(Get(schema, "enum")) {
      UnionQuoted(Get(schema, "enum").items);
    }
  }
}
