/** The JavaScript values the client handles: parsed JSON responses, request
    bodies and the objects the screens keep in their state. Numbers are
    modelled as integers (every number the client inspects is a 0/1 status
    code or an id). */
module JsValue {
  import opened Text

  datatype Value =
    | Undefined
    | Null
    | Bool(b: bool)
    | Num(n: int)
    | Str(s: string)
    | Arr(items: seq<Value>)
    | Obj(fields: map<string, Value>)

  /** JavaScript truthiness: `if (v)`. */
  predicate Truthy(v: Value)
  {
    match v
    case Undefined => false
    case Null => false
    case Bool(b) => b
    case Num(n) => n != 0
    case Str(s) => s != ""
    case Arr(_) => true
    case Obj(_) => true
  }

  /** `null` or `undefined`: the values whose property reads throw. */
  predicate Nullish(v: Value)
  {
    v.Undefined? || v.Null?
  }

  /** `a || b`. */
  function Or(a: Value, b: Value): (r: Value)
    ensures Truthy(r) <==> Truthy(a) || Truthy(b)
  {
    if Truthy(a) then a else b
  }

  /** Property read `v.k` (and `v?.k`). Only plain objects carry the keys the
      client reads (`body`, `status`, `data`, `id`, ...); on any other value,
      and for a missing key, the read yields `undefined`. */
  function Get(v: Value, k: string): Value
  {
    if v.Obj? && k in v.fields then v.fields[k] else Undefined
  }

  /** A value as a template literal `${v}` renders it: strings as
      themselves, numbers in decimal, arrays as their elements joined by
      commas (with `null`/`undefined` elements left empty), and any object
      as `[object Object]`. */
  function Display(v: Value): string
    decreases v, 1, 0
  {
    match v
    case Undefined => "undefined"
    case Null => "null"
    case Bool(b) => if b then "true" else "false"
    case Num(n) => IntText(n)
    case Str(s) => s
    case Arr(items) => DisplayItems(v, 0)
    case Obj(_) => "[object Object]"
  }

  function DisplayItems(v: Value, i: nat): string
    requires v.Arr? && i <= |v.items|
    decreases v, 0, |v.items| - i
  {
    if i == |v.items| then ""
    else
      var item := if Nullish(v.items[i]) then "" else Display(v.items[i]);
      item + (if i + 1 == |v.items| then "" else "," + DisplayItems(v, i + 1))
  }

  /** `v || fallback` as shown in an alert. */
  function TextOr(v: Value, fallback: string): (t: string)
    ensures v.Str? && v.s != [] ==> t == v.s
    ensures !Truthy(v) ==> t == fallback
  {
    Display(Or(v, Str(fallback)))
  }
}
