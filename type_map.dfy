/** The two schema-to-TypeScript type mappers: `getType` of
    lib/util/getType.ts, used by the SDK command, and the `getType` method
    of lib/ServiceGenerator.ts with its `getRefName`. */
module TypeMap {
  import opened JsonModel
  import opened Text

  const NumberTypes: set<string> := {"number", "int", "integer", "long", "float", "double"}
  const DateTypes: set<string> := {"date", "dateTime", "datetime"}
  const StringTypes: set<string> := {"string", "email", "password", "url", "byte", "binary"}

  /** `schemaObject && schemaObject.type`, the value both switches test. */
  function TypeTag(schema: Json): Json {
    if Truthy(schema) then Get(schema, "type") else schema
  }

  /** `schemaObject.items`: the schema's own child, or undefined. */
  function Items(schema: Json): (r: Json)
    ensures r < schema || r == JUndef
  {
    assert ParseIndex("items") == None by { assert !IsDigit("items"[0]); }
    GetSmaller(schema, "items");
    Get(schema, "items")
  }

  /** `values.map(v => `'${v}'`).join(' | ')` */
  function Union(values: seq<Json>): string {
    Join(seq(|values|, i requires 0 <= i < |values| => "'" + ToStr(values[i]) + "'"), " | ")
  }

  /** The `enum` case of lib/util/getType.ts: a union of the values, `any`
      without a list, and a throw when the truthy `enum` has no `map`. */
  function EnumUnion(values: Json): Result<string> {
    if !Truthy(values) then Ok("any")
    else if values.JArr? then Ok(Union(values.items))
    else Err(TypeError)
  }

  /** `getType(schemaObject)` of lib/util/getType.ts. */
  function GetType(schema: Json): Result<string>
    decreases schema != JUndef, schema
  {
    match TypeTag(schema)
    case JStr(t) =>
      if t in NumberTypes then Ok("number")
      else if t in DateTypes then Ok("Date")
      else if t in StringTypes then Ok("string")
      else if t == "boolean" then Ok("boolean")
      else if t == "enum" then EnumUnion(Get(schema, "enum"))
      else if t == "array" then
        var inner :- GetType(Items(schema));
        Ok(inner + "[]")
      else Ok("any")
    case _ => Ok("any")
  }

  /** `getRefName(refObject)`: the last `/` segment of a truthy `$ref`, and
      the argument itself for anything that is not an object or has none. */
  function GetRefName(node: Json): Result<Json> {
    if !IsObjectType(node) then Ok(node)
    else
      var ref :- Read(node, "$ref");
      if !Truthy(ref) then Ok(node)
      else if !ref.JStr? then Err(TypeError)
      else Ok(JStr(LastSegment(ref.s)))
  }

  /** `[namespace, name].filter(s => s).join('.')` */
  function Qualified(namespace: string, name: string): string {
    Join(if namespace == "" then (if name == "" then [] else [name])
         else (if name == "" then [namespace] else [namespace, name]), ".")
  }

  /** The string case of lib/ServiceGenerator.ts: a union of a non-empty
      `enum`, else `string`; a truthy `enum` without `map` throws. */
  function StringUnion(values: Json): Result<string> {
    if !Truthy(values) then Ok("string")
    else if values.JArr? then Ok(if Union(values.items) == "" then "string" else Union(values.items))
    else Err(TypeError)
  }

  /** `getType(schemaObject, namespace)` of lib/ServiceGenerator.ts: a ref
      is named, never followed; `$ref` is read before the null guard, so an
      absent schema throws. */
  function ServiceType(schema: Json, namespace: string): Result<string>
    decreases schema != JUndef, schema
  {
    var ref :- Read(schema, "$ref");
    if Truthy(ref) then
      var name :- GetRefName(schema);
      Ok(Qualified(namespace, ToStr(name)))
    else
      match TypeTag(schema)
      case JStr(t) =>
        if t in NumberTypes then Ok("number")
        else if t == "Date" || t in DateTypes then Ok("Date")
        else if t in StringTypes then StringUnion(Get(schema, "enum"))
        else if t == "boolean" then Ok("boolean")
        else if t == "array" then
          var inner :- ServiceType(Items(schema), namespace);
          Ok(inner + "[]")
        else Ok("any")
      case _ => Ok("any")
  }
}
