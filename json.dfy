/**
 * JSON request values as a JavaScript handler sees them, and the
 * JavaScript conversions the handlers apply to them: truthiness,
 * `v.toString().trim() === ''` and `Number(v)`.
 */
module Js {
  import opened Wrappers
  import opened Strings
  import opened Numerals

  /**
   * A value read from a parsed request body. `Undefined` is a field that is
   * not there; `Obj` is any nested object (its contents are never inspected).
   */
  datatype Json =
    | Undefined
    | Null
    | Bool(b: bool)
    | Num(n: real)
    | Str(s: string)
    | Arr(items: seq<Json>)
    | Obj

  /** A request body, `req.body`. */
  type Body = map<string, Json>

  /** `req.body[field]`: a field that is not in the body reads as `undefined`. */
  function Get(body: Body, field: string): (v: Json)
    ensures field !in body ==> v == Undefined
  {
    if field in body then body[field] else Undefined
  }

  /**
   * JavaScript truthiness: `undefined`, `null`, `false`, `0` and `""` are
   * falsy; every other value, the empty array included, is truthy.
   */
  predicate Truthy(v: Json) {
    match v
    case Undefined => false
    case Null => false
    case Bool(b) => b
    case Num(n) => n != 0.0
    case Str(s) => s != ""
    case Arr(_) => true
    case Obj => true
  }

  /**
   * Whether `String(v).trim()` is empty, for a value that is not `null` or
   * `undefined` (which print as "null" and "undefined"). Arrays print as
   * their elements joined by commas, with `null` and `undefined` elements
   * printing as nothing; numbers, booleans and objects never print blank.
   */
  predicate PrintsBlank(v: Json)
    decreases v
  {
    match v
    case Str(s) => IsBlank(s)
    case Arr(items) =>
      |items| == 0 || (|items| == 1 && (items[0].Undefined? || items[0].Null? || PrintsBlank(items[0])))
    case _ => false
  }

  /**
   * Whether this model knows `String(v)`: it does for every value except a
   * number that is not an integer printed in plain digits (a fraction, or
   * a magnitude of 10^21 or more), alone or inside an array.
   */
  predicate Printable(v: Json)
    decreases v
  {
    match v
    case Num(n) => n.Floor as real == n && -1000000000000000000000.0 < n < 1000000000000000000000.0
    case Arr(items) => forall i :: 0 <= i < |items| ==> Printable(items[i])
    case _ => true
  }

  /**
   * `String(v)`: arrays print as their elements joined by ",", with `null`
   * and `undefined` elements printing as nothing, and an object prints as
   * "[object Object]".
   */
  function Print(v: Json): (s: string)
    requires Printable(v)
    ensures v.Str? ==> s == v.s
    ensures v.Num? ==> s == IntegerText(v.n.Floor)
    decreases v
  {
    match v
    case Undefined => "undefined"
    case Null => "null"
    case Bool(b) => if b then "true" else "false"
    case Num(n) => IntegerText(n.Floor)
    case Str(s) => s
    case Arr(items) =>
      Join(seq(|items|, i requires 0 <= i < |items| =>
        if items[i].Undefined? || items[i].Null? then "" else Print(items[i])), ",")
    case Obj => "[object Object]"
  }

  /**
   * `Number(v)`; `None` is NaN. A string is read as a numeric literal. An
   * array is printed first and its text read: the empty array is 0, an
   * array of one element reads as that element printed (`null` and
   * `undefined` print as nothing, so 0; a boolean prints as a word, so
   * NaN), and a longer array prints with a comma, which is NaN.
   */
  function ToNumber(v: Json): (r: Option<real>)
    ensures v.Num? ==> r == Some(v.n)
    ensures v.Str? ==> r == StringToNumber(v.s)
    ensures v.Undefined? || v.Obj? ==> r == None
    decreases v
  {
    match v
    case Undefined => None
    case Null => Some(0.0)
    case Bool(b) => Some(if b then 1.0 else 0.0)
    case Num(n) => Some(n)
    case Str(s) => StringToNumber(s)
    case Arr(items) =>
      if |items| == 0 then Some(0.0)
      else if |items| > 1 then None
      else if items[0].Undefined? || items[0].Null? then Some(0.0)
      else if items[0].Bool? then None
      else ToNumber(items[0])
    case Obj => None
  }

  /** A string or a one-element array holding the decimal text of an integer reads as that integer. */
  lemma IntegerTextRead(i: int)
    ensures ToNumber(Str(IntegerText(i))) == Some(i as real)
    ensures ToNumber(Arr([Str(IntegerText(i))])) == Some(i as real)
    ensures ToNumber(Arr([Num(i as real)])) == Some(i as real)
  {
    IntegerRoundTrip(i);
  }

  /** `typeof v === 'string' && list.includes(v)`: membership by strict equality. */
  predicate IsOneOf(v: Json, list: seq<string>) {
    v.Str? && v.s in list
  }
}
