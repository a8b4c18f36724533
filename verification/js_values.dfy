/** The slice of JavaScript's value space the application manipulates after
    `JSON.parse`: what is truthy, what a property read returns (or that it
    throws), and what `String(v)` produces. Numbers are integers here. */
module JsValues {
  import opened Options

  datatype Value =
    | Undefined
    | Null
    | Bool(b: bool)
    | Num(n: int)
    | Str(s: string)
    | Arr(items: seq<Value>)
    | Obj(fields: map<string, Value>)

  /** JavaScript truthiness (`!!v`). */
  predicate Truthy(v: Value) {
    match v
    case Undefined => false
    case Null => false
    case Bool(b) => b
    case Num(n) => n != 0
    case Str(s) => s != ""
    case Arr(_) => true
    case Obj(_) => true
  }

  /** `a || b` on values. */
  function Or(a: Value, b: Value): (r: Value)
    ensures Truthy(a) ==> r == a
    ensures !Truthy(a) ==> r == b
  {
    if Truthy(a) then a else b
  }

  /** A property read `v.key`: `None` when it throws (reading a property of
      `null` or `undefined` is a TypeError); arrays, strings, numbers and
      booleans carry none of the application's keys. */
  function Get(v: Value, key: string): (r: Option<Value>)
    ensures r.None? <==> v.Null? || v.Undefined?
    ensures v.Obj? && key !in v.fields ==> r == Some(Undefined)
  {
    match v
    case Undefined => None
    case Null => None
    case Obj(m) => Some(if key in m then m[key] else Undefined)
    case _ => Some(Undefined)
  }

  /** The field of an object or `Undefined`; used where the source has
      already established that `v` is an object. */
  function Field(m: map<string, Value>, key: string): Value {
    if key in m then m[key] else Undefined
  }

  /** `'key' in v && v.key === s` for a string `s`, the sentinel test the
      displays apply to a parsed object. */
  predicate HasStringField(v: Value, key: string, s: string) {
    v.Obj? && key in v.fields && v.fields[key] == Str(s)
  }

  function DigitChar(d: nat): char
    requires d < 10
  {
    "0123456789"[d]
  }

  function NatToDecimal(n: nat): string
    decreases n
  {
    if n < 10 then [DigitChar(n)] else NatToDecimal(n / 10) + [DigitChar(n % 10)]
  }

  function IntToDecimal(n: int): string {
    if n < 0 then "-" + NatToDecimal(-n) else NatToDecimal(n)
  }

  /** `String(v)`, as a template literal `${v}` renders it. */
  function ToJsString(v: Value): string
    decreases v, 1
  {
    match v
    case Undefined => "undefined"
    case Null => "null"
    case Bool(b) => if b then "true" else "false"
    case Num(n) => IntToDecimal(n)
    case Str(s) => s
    case Arr(items) => JoinItems(v, items, 0)
    case Obj(_) => "[object Object]"
  }

  /** `Array.prototype.join(",")` from index `i`: `null` and `undefined`
      elements render as the empty string. */
  function JoinItems(ghost parent: Value, items: seq<Value>, i: nat): string
    requires parent == Arr(items)
    requires i <= |items|
    decreases parent, 0, |items| - i
  {
    if i == |items| then ""
    else
      var head := if items[i].Null? || items[i].Undefined? then "" else ToJsString(items[i]);
      if i + 1 == |items| then head else head + "," + JoinItems(parent, items, i + 1)
  }
}
