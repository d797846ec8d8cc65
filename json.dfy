/** JSON values as the backend sees them after `request.get_json()` or `json.loads`,
    Python's truthiness on them, and the JSON library abstracted as a codec. */
module Json {
  import opened Common

  /** A decoded JSON value. Numbers are integers (floating point is not modelled). */
  datatype Value =
    | Null
    | Bool(b: bool)
    | Num(n: int)
    | Str(s: string)
    | Arr(items: seq<Value>)
    | Obj(fields: map<string, Value>)

  /** Python's `bool(v)`: null, false, 0, "", [] and {} are falsy. */
  predicate Truthy(v: Value) {
    match v
    case Null => false
    case Bool(b) => b
    case Num(n) => n != 0
    case Str(s) => s != ""
    case Arr(items) => items != []
    case Obj(fields) => fields != map[]
  }

  /** `d.get(k)`: the value under `k`, or null when the key is missing. */
  function Get(m: map<string, Value>, k: string): Value {
    if k in m then m[k] else Null
  }

  /** Python's `v or d`. */
  function Or(v: Value, d: Value): (r: Value)
    ensures Truthy(v) ==> r == v
    ensures !Truthy(v) ==> r == d
  {
    if Truthy(v) then v else d
  }

  /** A Python `str | None` as a JSON value. */
  function OfOption(o: Option<string>): Value {
    match o
    case None => Null
    case Some(s) => Str(s)
  }

  /** `json.dumps` and `json.loads`, abstracted: `loads` yields None where the library raises. */
  datatype Codec = Codec(dumps: Value -> string, loads: string -> Option<Value>)

  /** What the backend relies on from the JSON library: the empty text does not parse,
      every dumped value parses back to itself, and `dumps` (without `indent`) never
      writes a raw newline, since newlines inside strings are escaped. */
  ghost predicate Lawful(c: Codec) {
    && c.loads("") == None
    && (forall v :: c.loads(c.dumps(v)) == Some(v))
    && (forall v :: '\n' !in c.dumps(v))
  }

  /** A lawful codec never produces the empty text, so its output is always truthy. */
  lemma DumpsNonEmpty(c: Codec, v: Value)
    requires Lawful(c)
    ensures c.dumps(v) != ""
  {
    var t := c.dumps(v);
    assert c.loads(t) == Some(v);
  }
}
