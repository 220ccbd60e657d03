/** Ruby values as an intent service sees them once a JSON payload has been
    decoded, together with the two kinds of hash key a handler may use. */
module RubyValues {

  datatype Option<+T> = None | Some(value: T)

  /** A hash key: a String (what JSON decoding produces) or a Symbol (what
      Ruby literals such as `{ intents: x }` produce). `to_s` gives the name. */
  datatype Key = StrKey(name: string) | SymKey(name: string)

  /** A decoded JSON document or a value a handler returns. Floats are not
      modelled; integers are unbounded. */
  datatype Value =
    | Nil
    | Bool(b: bool)
    | Num(n: int)
    | Text(s: string)
    | Symbol(sym: string)
    | List(items: seq<Value>)
    | Hash(entries: map<Key, Value>)

  /** `hash.fetch(name, default)` for a string key. */
  function Fetch(h: map<Key, Value>, name: string, default: Value): (v: Value)
    ensures StrKey(name) in h ==> v == h[StrKey(name)]
    ensures StrKey(name) !in h ==> v == default
  {
    if StrKey(name) in h then h[StrKey(name)] else default
  }

  /** The empty hash `{}`. */
  const EmptyHash: Value := Hash(map[])
}
