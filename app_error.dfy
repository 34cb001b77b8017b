/**
  The application error type. Its definition (src/error.rs) is not part of this
  model; only the two variants the modelled code constructs appear here.
*/
module AppErrors {

  datatype AppError =
    | DatabaseError(message: string)
    | InternalServerError(message: string)

  /** `format!("{:?}", s)` for a `String`: the text between double quotes. */
  function DebugString(s: string): (r: string)
    ensures |r| == |s| + 2 && r[0] == '"' && r[|r| - 1] == '"' && r[1..|r| - 1] == s
  {
    "\"" + s + "\""
  }
}
