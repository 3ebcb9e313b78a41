/**
 * JavaScript values as the handlers and hooks see them after `JSON.parse`,
 * with JavaScript's notion of truthiness. Numbers are integers here.
 */
module Json {

  datatype Value =
    | Undefined
    | Null
    | Bool(b: bool)
    | Num(n: int)
    | Str(s: string)
    | Arr(items: seq<Value>)
    | Obj(fields: map<string, Value>)

  type Object = map<string, Value>

  /** `!!v`: `undefined`, `null`, `false`, `0` and `""` are falsy. */
  predicate Truthy(v: Value) {
    match v
    case Undefined => false
    case Null => false
    case Bool(b) => b
    case Num(n) => n != 0
    case Str(s) => s != ""
    case Arr(_) => true
    case Obj(_) => true
  }

  /** What `??` tests for. */
  predicate Nullish(v: Value) {
    v.Undefined? || v.Null?
  }

  /** `o[k]` on an object: a missing key reads as `undefined`. */
  function Get(o: Object, k: string): Value {
    if k in o then o[k] else Undefined
  }

  /** `v[k]` on any non-nullish value: only objects have own named properties here. */
  function Property(v: Value, k: string): Value
    requires !Nullish(v)
  {
    if v.Obj? then Get(v.fields, k) else Undefined
  }

  /** `v ?? fallback`. */
  function Coalesce(v: Value, fallback: Value): (r: Value)
    ensures Nullish(v) ==> r == fallback
    ensures !Nullish(v) ==> r == v
  {
    if Nullish(v) then fallback else v
  }
}
