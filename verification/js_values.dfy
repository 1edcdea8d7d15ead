/** The JavaScript values that flow through the scanner: options, enum
    substitutes, type-function results and the `lastMatch` field. */
module JsValues {

  datatype Regex = Regex(source: string, flags: string)

  /** `Func` is any callable; `arity` is its `length` property. `Obj` is any
      other object: it has no `length`, `value` or `textMatched` property.
      Numbers are integers (no NaN, no fractions). */
  datatype Value =
    | Undefined
    | Null
    | Bool(b: bool)
    | Num(n: int)
    | Str(s: string)
    | Pattern(r: Regex)
    | Arr(items: seq<Value>)
    | Func(id: nat, arity: nat)
    | Obj(id: nat)

  /** A value that `typeof v === 'function'` accepts. */
  type Function = v: Value | v.Func? witness Func(0, 0)

  /** `Boolean(v)` */
  predicate Truthy(v: Value) {
    match v
    case Undefined => false
    case Null => false
    case Bool(b) => b
    case Num(n) => n != 0
    case Str(s) => s != ""
    case _ => true
  }

  /** `v == null` (loose equality): null or undefined. */
  predicate IsNullish(v: Value) {
    v.Undefined? || v.Null?
  }

  /** `a ?? b` */
  function Coalesce(a: Value, b: Value): (r: Value)
    ensures IsNullish(a) ==> r == b
    ensures !IsNullish(a) ==> r == a
  {
    if IsNullish(a) then b else a
  }

  /** What reading `v.length` gives. */
  datatype LengthRead =
    | Length(n: nat)      // a usable length
    | ThrowsTypeError     // `null.length` / `undefined.length`
    | NotANumber          // `undefined`, which turns `pos += v.length` into NaN

  function ReadLength(v: Value): (r: LengthRead)
    ensures v.Str? ==> r == Length(|v.s|)
    ensures r.ThrowsTypeError? <==> IsNullish(v)
  {
    match v
    case Undefined => ThrowsTypeError
    case Null => ThrowsTypeError
    case Str(s) => Length(|s|)
    case Arr(items) => Length(|items|)
    case Func(_, arity) => Length(arity)
    case _ => NotANumber
  }

  /** An enum option `[key, value]`: an array of more than one element. */
  predicate IsEnum(opt: Value) {
    opt.Arr? && |opt.items| > 1
  }

  /** `s.slice(start)`: a negative start counts from the end. */
  function SliceFrom(s: string, start: int): (r: string)
    ensures |r| <= |s| && r == s[|s| - |r|..]
    ensures 0 <= start <= |s| ==> r == s[start..]
  {
    if start < 0 then
      (if |s| + start < 0 then s else s[|s| + start..])
    else if start > |s| then ""
    else s[start..]
  }

  /** `s.slice(0, end)` for a non-negative end. */
  function SliceTo(s: string, end: nat): (r: string)
    ensures |r| <= |s| && r == s[..|r|]
    ensures end <= |s| ==> r == s[..end]
  {
    if end > |s| then s else s[..end]
  }
}
