/** `fixSwagger` of lib/util/fixSwagger.ts:6-9: the rename-and-rewrite pass,
    then the body-parameter merge. */
module FixSwagger {
  import opened JsonModel
  import opened FixRef
  import opened FixBody

  /** The document and the exception the two passes leave; an exception in
      the first means the second never runs. */
  function FixSwaggerSpec(renamePrefix: string, data: Json): (Json, Option<Error>) {
    var (d, e) := FixRefNameSpec(Current(renamePrefix), data);
    if e.Some? then (d, e) else FixRequestBodySpec(d)
  }

  method FixSwaggerDoc(renamePrefix: string, data: Json) returns (out: Json, err: Option<Error>)
    ensures (out, err) == FixSwaggerSpec(renamePrefix, data)
  {
    out, err := FixRefName(Current(renamePrefix), data);
    if err.None? {
      out, err := FixRequestBody(out);
    }
  }
}
