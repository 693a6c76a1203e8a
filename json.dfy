/** The JSON-representable values the gateway puts into its event maps. */
module Json {
  import opened Common

  datatype Value =
    | Null
    | Text(s: string)
    | Int(n: int)
    | Reals(xs: seq<real>)
    | Object(fields: map<string, Value>)

  /** A `Map<String, Object>` handed to the broadcast hub. */
  type Event = map<string, Value>

  /** A possibly-null Java String put into a map. */
  function TextOrNull(s: Option<string>): Value
  {
    match s
    case None => Null
    case Some(t) => Text(t)
  }

  /** Field lookup that treats an absent key like Java's `Map.get`, which yields null. */
  function Get(e: Event, key: string): Value
  {
    if key in e then e[key] else Null
  }
}
