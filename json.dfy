/**
 * The untyped input a schema validates: a JSON value as it comes out of the
 * store or the form. An object field that is absent stands for JavaScript's
 * `undefined`. Issues name the path and the kind of failure.
 */
module Json {
  import opened Wrappers

  datatype Json =
    | JNull
    | JBool(b: bool)
    | JNumber(n: int)
    | JString(s: string)
    | JArray(items: seq<Json>)
    | JObject(fields: map<string, Json>)

  datatype Segment = Key(name: string) | At(index: nat)

  type Path = seq<Segment>

  datatype IssueCode =
    | Required                                 // the value is undefined
    | InvalidType                              // present, but of another type
    | ExactLength(expected: nat, received: nat) // an array of the wrong length
    | TooShort(minimum: nat)                   // a string below its minimum length

  datatype Issue = Issue(path: Path, code: IssueCode)

  /** The value stored under key, None where the key is absent. */
  function Get(fields: map<string, Json>, key: string): (v: Option<Json>)
    ensures v.Some? <==> key in fields
    ensures v.Some? ==> v.value == fields[key]
  {
    if key in fields then Some(fields[key]) else None
  }

  predicate IsString(v: Option<Json>) {
    v.Some? && v.value.JString?
  }

  /** `z.string()`: accepts a present string and nothing else. */
  function ParseString(v: Option<Json>, path: Path): (r: Result<string, Issue>)
    ensures r.Ok? <==> IsString(v)
    ensures r.Ok? ==> v == Some(JString(r.value))
  {
    match v
    case None => Err(Issue(path, Required))
    case Some(JString(s)) => Ok(s)
    case Some(_) => Err(Issue(path, InvalidType))
  }
}
