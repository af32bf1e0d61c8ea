/**
 * The JavaScript values that the plugin stores in local storage and reads back: the values
 * that JSON can represent. A property that is missing reads as `None` (JavaScript's
 * `undefined`).
 */
module Json {
  import opened Wrappers

  datatype Value =
    | Null
    | Bool(b: bool)
    | Num(n: real)
    | Str(s: string)
    | Arr(items: seq<Value>)
    | Obj(fields: map<string, Value>)

  /** JavaScript's ToBoolean: `undefined`, `null`, `false`, `0` and `""` are falsy; every array and object is truthy. */
  predicate Truthy(v: Option<Value>) {
    match v
    case None => false
    case Some(Null) => false
    case Some(Bool(b)) => b
    case Some(Num(n)) => n != 0.0
    case Some(Str(s)) => s != ""
    case Some(Arr(_)) => true
    case Some(Obj(_)) => true
  }

  /** `a || b`: the first operand when it is truthy, the second otherwise. */
  function Or(a: Option<Value>, b: Option<Value>): Option<Value> {
    if Truthy(a) then a else b
  }

  /** Reading key `k` of a plain object (a settings object or a parsed record). */
  function Get(m: map<string, Value>, k: string): Option<Value> {
    if k in m then Some(m[k]) else None
  }

  /** `v.k` on a value that is not `null`: only objects have the named properties used here. */
  function Prop(v: Value, k: string): Option<Value> {
    if v.Obj? then Get(v.fields, k) else None
  }

  /** Decimal text of an integer, as JavaScript prints a whole number. */
  function IntText(i: int): (r: string)
    ensures |r| > 0
    decreases if i < 0 then 1 - i else i
  {
    if i < 0 then "-" + IntText(-i)
    else if i < 10 then [Digit(i)]
    else IntText(i / 10) + [Digit(i % 10)]
  }

  function Digit(d: int): char
    requires 0 <= d < 10
  {
    "0123456789"[d]
  }

  /**
   * The text a template literal `${v}` produces. Whole numbers are printed in decimal; a
   * fractional number is printed by its whole part followed by ".", which is where this model
   * stops following JavaScript's number formatting.
   */
  function Render(v: Option<Value>): string {
    match v
    case None => "undefined"
    case Some(x) => RenderValue(x)
  }

  function RenderValue(v: Value): string
    decreases v
  {
    match v
    case Null => "null"
    case Bool(b) => if b then "true" else "false"
    case Num(n) => if n == n.Floor as real then IntText(n.Floor) else IntText(n.Floor) + "."
    case Str(s) => s
    case Arr(items) => RenderItems(v, 0)
    case Obj(_) => "[object Object]"
  }

  /** `Array.prototype.join(",")` over the elements from index `i` on: `null` elements print as "". */
  function RenderItems(whole: Value, i: nat): string
    requires whole.Arr? && i <= |whole.items|
    decreases whole, |whole.items| - i
  {
    if i == |whole.items| then ""
    else
      var x := whole.items[i];
      var first := if x.Null? then "" else RenderValue(x);
      if i + 1 == |whole.items| then first else first + "," + RenderItems(whole, i + 1)
  }
}
