/**
 * The JavaScript values that travel through the cache codec: plain data as JSON and
 * MessagePack know it, byte strings (`Uint8Array`), and `undefined`, which a property
 * read on a plain object yields when the property is missing.
 */
module JsValue {
  import opened Wrappers

  newtype byte = b: int | 0 <= b < 256

  type Bytes = seq<byte>

  /** A JavaScript value; numbers are modelled as integers. */
  datatype Value =
    | Undefined
    | Null
    | Bool(b: bool)
    | Num(n: int)
    | Str(s: string)
    | Bin(bytes: Bytes)
    | Arr(items: seq<Value>)
    | Obj(props: map<string, Value>)

  /** `undefined` and `null`: the values a property read throws on. */
  predicate Nullish(v: Value) {
    v.Undefined? || v.Null?
  }

  /**
   * `v[key]` for a value that is not nullish: the property of a plain object, `undefined` when
   * it is missing. The keys this model reads are not built-in properties of the other kinds
   * of value, so reading them there gives `undefined` as well.
   */
  function Get(v: Value, key: string): Value
    requires !Nullish(v)
  {
    if v.Obj? && key in v.props then v.props[key] else Undefined
  }

  /** Reading property `key` of a plain object given by its own properties. */
  function Lookup(props: map<string, Value>, key: string): Value {
    Get(Obj(props), key)
  }

  /** The message of the TypeError V8 raises when `key` is read from a nullish value. */
  function ReadError(v: Value, key: string): string
    requires Nullish(v)
  {
    "Cannot read properties of " + (if v.Null? then "null" else "undefined") + " (reading '" + key + "')"
  }

  /**
   * The values MessagePack carries through unchanged: everything but `undefined`, which
   * @msgpack/msgpack writes as nil and reads back as `null`.
   */
  predicate Representable(v: Value) {
    match v
    case Undefined => false
    case Arr(items) => forall i :: 0 <= i < |items| ==> Representable(items[i])
    case Obj(props) => forall k :: k in props ==> Representable(props[k])
    case _ => true
  }
}
