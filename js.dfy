/** The JavaScript values the form engine passes around, with the two
    conversions it relies on: truthiness (`if (x)`, `x || y`, `x && y`)
    and `String(x)` (used when a value is spliced into a URL). */
module Js {

  datatype Option<+T> = None | Some(value: T)

  /** A JavaScript value. Numbers are integers; `Obj` stands for any object
      or function reference and carries its identity; `Arr` is an array,
      described by its elements. */
  datatype Value =
    | Undefined
    | Null
    | Bool(b: bool)
    | Num(n: int)
    | Str(s: string)
    | Arr(items: seq<Value>)
    | Obj(id: nat)

  /** A prop that may be given either as a value or as a function returning
      one (`typeof x === 'function'`). The functions are taken to be pure,
      so a function stands here for the value calling it returns. */
  datatype Provided = Given(v: Value) | Computed(result: Value)

  /** The value a provided prop stands for: the function's result, or the
      value itself. */
  function Resolve(p: Provided): Value
  {
    match p
    case Given(v) => v
    case Computed(r) => r
  }

  /** `typeof x === 'function' ? x : () => x`: the zero-argument function the
      engine stores in place of a provided prop. */
  function AsThunk(p: Provided): (f: Provided)
    ensures f.Computed? && Resolve(f) == Resolve(p)
    ensures p.Computed? ==> f == p
  {
    match p
    case Given(v) => Computed(v)
    case Computed(_) => p
  }

  /** JavaScript truthiness: `undefined`, `null`, `false`, `0` and `''` are
      falsy; every array and object is truthy, even an empty one. */
  predicate Truthy(v: Value)
  {
    match v
    case Undefined => false
    case Null => false
    case Bool(b) => b
    case Num(n) => n != 0
    case Str(s) => s != ""
    case Arr(_) => true
    case Obj(_) => true
  }

  /** `a === b`. Primitives compare by value, objects by identity. Arrays are
      references in JavaScript; the model keeps no identity for them, so two
      arrays are never strictly equal here. */
  predicate StrictEquals(a: Value, b: Value)
  {
    match a
    case Arr(_) => false
    case _ => a == b
  }

  function DigitChar(d: nat): (c: char)
    requires d < 10
    ensures '0' <= c <= '9'
  {
    ['0', '1', '2', '3', '4', '5', '6', '7', '8', '9'][d]
  }

  /** The decimal digits of `n`, most significant first, without leading zeros. */
  function NatToString(n: nat): (s: string)
    ensures |s| > 0
    ensures forall i :: 0 <= i < |s| ==> '0' <= s[i] <= '9'
    ensures n > 0 ==> s[0] != '0'
  {
    if n < 10 then [DigitChar(n)] else NatToString(n / 10) + [DigitChar(n % 10)]
  }

  function IntToString(n: int): (s: string)
    ensures |s| > 0
    ensures (s[0] == '-') <==> n < 0
  {
    if n < 0 then "-" + NatToString(-n) else NatToString(n)
  }

  /** `String(v)`. An array is joined with commas, its `null` and `undefined`
      elements becoming empty strings. */
  function ToString(v: Value): string
    decreases v, 1, 0
  {
    match v
    case Undefined => "undefined"
    case Null => "null"
    case Bool(b) => if b then "true" else "false"
    case Num(n) => IntToString(n)
    case Str(s) => s
    case Arr(items) => JoinElements(v, |items|)
    case Obj(_) => "[object Object]"
  }

  /** The first `n` elements of the array `a`, converted and joined with commas. */
  function JoinElements(a: Value, n: nat): string
    requires a.Arr? && n <= |a.items|
    decreases a, 0, n
  {
    if n == 0 then ""
    else
      var e := a.items[n - 1];
      var text := if e.Undefined? || e.Null? then "" else ToString(e);
      if n == 1 then text else JoinElements(a, n - 1) + "," + text
  }
}
