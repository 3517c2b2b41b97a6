/**
 * What the document database does with a document before it stores it:
 * every assignment to a path is cast to the path's type (a failed cast is
 * remembered as an error on that path and leaves the path as it was), and
 * `validate()` collects one error per failing path into a ValidationError.
 */
module Schema {
  import opened Wrappers
  import opened Strings
  import opened Js
  import opened Numerals

  /** What a path of a document holds: nothing yet, `null` (`Nil`), or a value. */
  datatype Slot<+T> = Unset | Nil | Set(v: T)

  /** One entry of a ValidationError: the failing path and its message. */
  datatype FieldError = FieldError(path: string, message: string)

  predicate HasPath(errs: seq<FieldError>, path: string) {
    exists i :: 0 <= i < |errs| && errs[i].path == path
  }

  /**
   * Records `e` in an error object keyed by path: a path that is already
   * invalid keeps its first error, so there is at most one error per path.
   */
  function AddError(errs: seq<FieldError>, e: FieldError): (r: seq<FieldError>)
    ensures HasPath(r, e.path)
    ensures forall p :: HasPath(r, p) <==> HasPath(errs, p) || p == e.path
    ensures |errs| <= |r| <= |errs| + 1 && r[..|errs|] == errs
  {
    if HasPath(errs, e.path) then errs
    else
      var r := errs + [e];
      assert r[|errs|].path == e.path;
      assert forall p :: HasPath(errs, p) ==> HasPath(r, p) by {
        forall p | HasPath(errs, p) ensures HasPath(r, p) {
          var i :| 0 <= i < |errs| && errs[i].path == p;
          assert r[i] == errs[i];
        }
      }
      r
  }

  /** Adds the errors of `more`, in order, to `errs`. */
  function AddErrors(errs: seq<FieldError>, more: seq<FieldError>): (r: seq<FieldError>)
    ensures forall p :: HasPath(r, p) <==> HasPath(errs, p) || HasPath(more, p)
    ensures |errs| <= |r| && r[..|errs|] == errs
    decreases |more|
  {
    if more == [] then errs
    else
      var r := AddErrors(AddError(errs, more[0]), more[1..]);
      assert forall p :: HasPath(more, p) <==> p == more[0].path || HasPath(more[1..], p) by {
        forall p ensures HasPath(more, p) <==> p == more[0].path || HasPath(more[1..], p) {
          if HasPath(more, p) && p != more[0].path {
            var i :| 0 <= i < |more| && more[i].path == p;
            assert more[1..][i - 1] == more[i];
          }
          if HasPath(more[1..], p) {
            var i :| 0 <= i < |more[1..]| && more[1..][i].path == p;
            assert more[i + 1] == more[1..][i];
          }
        }
      }
      r
  }

  /** The messages of the errors, in order: `Object.values(err.errors).map(e => e.message)`. */
  function Messages(errs: seq<FieldError>): (ms: seq<string>)
    ensures |ms| == |errs| && forall i :: 0 <= i < |errs| ==> ms[i] == errs[i].message
  {
    seq(|errs|, i requires 0 <= i < |errs| => errs[i].message)
  }

  /** A ValidationError's own `message`: "<Model> validation failed: <path>: <message>, ...". */
  function ValidationFailedMessage(model: string, errs: seq<FieldError>): string
  {
    model + " validation failed: "
    + Join(seq(|errs|, i requires 0 <= i < |errs| => errs[i].path + ": " + errs[i].message), ", ")
  }

  /** The message of a failed cast (the value itself is not quoted in this model). */
  function CastMessage(kind: string, path: string): string {
    "Cast to " + kind + " failed at path \"" + path + "\""
  }

  /** The message of the built-in `enum` validator. */
  function EnumMessage(value: string, path: string): string {
    "`" + value + "` is not a valid enum value for path `" + path + "`."
  }

  /**
   * Casting a request value for a String path: `undefined` leaves the path
   * unset, `null` stores null, a string is stored; anything else is a cast
   * failure (`None`).
   */
  function CastText(v: Json): (c: Option<Slot<string>>)
    ensures v.Str? ==> c == Some(Set(v.s))
    ensures c.None? <==> !(v.Undefined? || v.Null? || v.Str?)
  {
    match v
    case Undefined => Some(Unset)
    case Null => Some(Nil)
    case Str(s) => Some(Set(s))
    case _ => None
  }

  /**
   * Casting a request value for a Number path: a number is kept, `null`
   * and the empty string store null, a boolean stores 1 or 0, any other
   * string is read as `Number(s)` and fails when that is NaN; arrays and
   * objects fail.
   */
  function CastNumber(v: Json): (c: Option<Slot<real>>)
    ensures v.Num? ==> c == Some(Set(v.n))
    ensures v.Str? && v.s != "" && StringToNumber(v.s).Some? ==> c == Some(Set(StringToNumber(v.s).value))
    ensures c.None? <==> v.Arr? || v.Obj? || (v.Str? && v.s != "" && StringToNumber(v.s).None?)
  {
    match v
    case Undefined => Some(Unset)
    case Null => Some(Nil)
    case Bool(b) => Some(Set(if b then 1.0 else 0.0))
    case Num(n) => Some(Set(n))
    case Str(s) =>
      if s == "" then Some(Nil)
      else if StringToNumber(s).None? then None
      else Some(Set(StringToNumber(s).value))
    case _ => None
  }

  /** A string holding the decimal text of an integer is cast to that integer. */
  lemma NumericTextCast(i: int)
    ensures CastNumber(Str(IntegerText(i))) == Some(Set(i as real))
  {
    IntegerRoundTrip(i);
  }

  predicate AllText(items: seq<Json>) {
    forall i :: 0 <= i < |items| ==> items[i].Str?
  }

  /** Casting a request value for a `[String]` path: an array of strings, or one string wrapped in an array. */
  function CastTextList(v: Json): (c: Option<Slot<seq<string>>>)
    ensures v.Arr? && AllText(v.items) ==>
      c.Some? && c.value.Set? && |c.value.v| == |v.items|
      && forall i :: 0 <= i < |v.items| ==> c.value.v[i] == v.items[i].s
    ensures c.Some? ==> (c.value.Set? <==> !(v.Undefined? || v.Null?))
  {
    match v
    case Undefined => Some(Unset)
    case Null => Some(Nil)
    case Str(s) => Some(Set([s]))
    case Arr(items) =>
      if AllText(items) then Some(Set(seq(|items|, i requires 0 <= i < |items| => items[i].s)))
      else None
    case _ => None
  }

  /**
   * Casting an already parsed value for a Date or Number path: a `Date`
   * object's timestamp (`None` for an Invalid Date), or the result of
   * `Number(x)` (`None` for NaN). The cast fails exactly on `None`.
   */
  function CastParsed<T>(t: Option<T>): (c: Option<Slot<T>>)
    ensures c.Some? <==> t.Some?
    ensures t.Some? ==> c == Some(Set(t.value))
  {
    if t.Some? then Some(Set(t.value)) else None
  }

  /** The content of a path after an assignment whose cast is `c`: a failed cast leaves it as it was. */
  function Put<T>(prior: Slot<T>, c: Option<Slot<T>>): (s: Slot<T>)
    ensures c.None? ==> s == prior
    ensures c.Some? ==> s == c.value
  {
    if c.Some? then c.value else prior
  }

  /**
   * The recorded errors after an assignment whose cast is `c`: a failed
   * cast adds an error on `path`. Every document built here assigns each
   * path at most once, so a second failure on the same path never occurs.
   */
  function NoteCast<T>(errs: seq<FieldError>, c: Option<Slot<T>>, kind: string, path: string): (r: seq<FieldError>)
    ensures c.Some? ==> r == errs
    ensures c.None? ==> r == errs + [FieldError(path, CastMessage(kind, path))]
  {
    if c.Some? then errs else errs + [FieldError(path, CastMessage(kind, path))]
  }

  /** The built-in `required` validator: a path that holds no value fails with `msg`. */
  function Required<T>(path: string, s: Slot<T>, msg: string): (errs: seq<FieldError>)
    ensures errs == [] <==> s.Set?
    ensures errs != [] ==> errs == [FieldError(path, msg)]
  {
    if s.Set? then [] else [FieldError(path, msg)]
  }

  /** No error is recorded exactly when neither list holds one. */
  lemma AddErrorsEmpty(errs: seq<FieldError>, more: seq<FieldError>)
    ensures AddErrors(errs, more) == [] <==> errs == [] && more == []
  {
    var r := AddErrors(errs, more);
    if more != [] {
      assert HasPath(more, more[0].path);
      assert HasPath(r, more[0].path);
    }
  }

  /** A text path: the request's string when it is truthy, the stored text otherwise. */
  predicate TextTaken(v: Json, stored: string, now: string) {
    if Truthy(v) then v.Str? && now == v.s else now == stored
  }

  /** A path of the loaded document after an assignment made when `given` holds. */
  function Assigned<T>(stored: T, given: bool, c: Option<Slot<T>>): (s: Slot<T>)
    ensures !given || c.None? ==> s == Set(stored)
    ensures given && c.Some? ==> s == c.value
  {
    if given then Put(Set(stored), c) else Set(stored)
  }

  /** The cast error an assignment made when `given` holds records: one when the cast fails, none otherwise. */
  function CastFailure<T>(given: bool, c: Option<Slot<T>>, kind: string, path: string): (errs: seq<FieldError>)
    ensures errs == [] <==> !given || c.Some?
  {
    if given && c.None? then [FieldError(path, CastMessage(kind, path))] else []
  }

  /** An assignment made when `given` holds appends its cast failure, if any, to the recorded errors. */
  lemma NoteCastAppends<T>(errs: seq<FieldError>, given: bool, c: Option<Slot<T>>, kind: string, path: string)
    ensures (if given then NoteCast(errs, c, kind, path) else errs) == errs + CastFailure(given, c, kind, path)
  {
    if !given || c.Some? {
      assert errs + [] == errs;
    }
  }

  /** A text path after a truthy-guarded assignment whose cast succeeded. */
  lemma AssignedText(stored: string, v: Json, s: Slot<string>)
    requires s == Assigned(stored, Truthy(v), CastText(v))
    requires Truthy(v) ==> CastText(v).Some?
    ensures s.Set? && TextTaken(v, stored, s.v)
  {
  }
}
