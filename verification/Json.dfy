/** JSON documents as `serde_json::Value` reads them. */
module Json {
  import opened Common

  datatype Value =
    | Null
    | Bool(b: bool)
    | Int(i: int)
    | Float(f: real)
    | Str(s: string)
    | Arr(elems: seq<Value>)
    | Obj(fields: map<string, Value>)

  /** The text form of documents: `serde_json::from_str` and `to_string`, which are not part of
      this model. */
  datatype Codec = Codec(parse: string -> Option<Value>, render: Value -> string)

  /** `Value::get` with a key. */
  function Get(v: Value, key: string): Option<Value> {
    if v.Obj? && key in v.fields then Some(v.fields[key]) else None
  }

  /** `value[key]`: the null value stands for everything that is not there. */
  function At(v: Value, key: string): Value {
    if v.Obj? && key in v.fields then v.fields[key] else Null
  }

  /** `value[position]`. */
  function Item(v: Value, position: nat): Value {
    if v.Arr? && position < |v.elems| then v.elems[position] else Null
  }

  function AsStr(v: Value): Option<string> {
    if v.Str? then Some(v.s) else None
  }

  function AsU64(v: Value): Option<nat> {
    if v.Int? && 0 <= v.i <= U64_MAX then Some(v.i) else None
  }

  function StrOr(v: Value, otherwise: string): string {
    if v.Str? then v.s else otherwise
  }

  /** `value.get(key)` with an absent key and an explicit null alike. */
  predicate Missing(v: Value, key: string) {
    Get(v, key).None? || Get(v, key) == Some(Null)
  }
}
