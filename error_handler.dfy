/**
 * The global error handler (middleware/errorHandler.js): a classification
 * of the error a handler passed on into an HTTP status and message.
 */
module ErrorHandler {
  import opened Wrappers
  import opened Strings

  const ValidationErrorName: string := "ValidationError"
  const CastErrorName: string := "CastError"
  const DuplicateKeyCode: int := 11000
  const InvalidIdMessage: string := "Invalid ID format"
  const DefaultMessage: string := "Internal Server Error"

  /**
   * An error as the handler reads it; a property the error does not have is
   * `None`. `errors` holds the messages of `err.errors` and `keyPattern` the
   * keys of `err.keyPattern`, both in their enumeration order.
   */
  datatype Error = Error(
    name: string,
    code: Option<int>,
    errors: Option<seq<string>>,
    keyPattern: Option<seq<string>>,
    statusCode: Option<int>,
    message: string,
    stack: string)

  /** The debugging detail a development server adds to the response. */
  datatype Detail = Detail(stack: string, error: string)

  datatype Response = Response(status: int, message: string, detail: Option<Detail>)

  /**
   * What the handler does: answer, or throw while reading a property the
   * error does not have (`Object.values(undefined)`, `undefined.charAt`),
   * which leaves the answer to the framework.
   */
  datatype Outcome = Respond(response: Response) | Rethrown

  /** Neither a ValidationError, a duplicate key nor a CastError. */
  predicate IsFallback(err: Error) {
    err.name != ValidationErrorName && err.code != Some(DuplicateKeyCode) && err.name != CastErrorName
  }

  /** `err.statusCode || 500`. */
  function FallbackStatus(err: Error): (s: int)
    ensures s != 0
    ensures err.statusCode.Some? && err.statusCode.value != 0 ==> s == err.statusCode.value
    ensures err.statusCode.None? || err.statusCode.value == 0 ==> s == 500
  {
    if err.statusCode.Some? && err.statusCode.value != 0 then err.statusCode.value else 500
  }

  /** `err.message || 'Internal Server Error'`. */
  function FallbackMessage(err: Error): (m: string)
    ensures m != ""
    ensures err.message != "" ==> m == err.message
    ensures err.message == "" ==> m == DefaultMessage
  {
    if err.message != "" then err.message else DefaultMessage
  }

  /** `Field already exists`, from the first key of the duplicated index. */
  function DuplicateMessage(field: string): string {
    Capitalize(field) + " already exists"
  }

  /**
   * The handler. `development` is whether `NODE_ENV` is `development`.
   * The checks are made in a fixed order: ValidationError, duplicate key,
   * CastError, then the fallback.
   */
  function Handle(err: Error, development: bool): (o: Outcome)
    ensures o.Rethrown? <==>
      || (err.name == ValidationErrorName && err.errors.None?)
      || (err.name != ValidationErrorName && err.code == Some(DuplicateKeyCode)
          && (err.keyPattern.None? || err.keyPattern.value == []))
    ensures IsFallback(err) ==> o.Respond? && o.response.status != 0 && o.response.message != ""
    ensures IsFallback(err) ==>
      o == Respond(Response(FallbackStatus(err), FallbackMessage(err),
        if development then Some(Detail(err.stack, err.message)) else None))
    ensures o.Respond? && !IsFallback(err) ==> o.response.status == 400 && o.response.detail.None?
    ensures o.Respond? && o.response.detail.Some? <==> development && IsFallback(err)
    ensures err.name == CastErrorName && err.code != Some(DuplicateKeyCode) ==>
      o == Respond(Response(400, InvalidIdMessage, None))
  {
    if err.name == ValidationErrorName then
      if err.errors.None? then Rethrown
      else Respond(Response(400, Join(err.errors.value, ", "), None))
    else if err.code == Some(DuplicateKeyCode) then
      if err.keyPattern.None? || err.keyPattern.value == [] then Rethrown
      else Respond(Response(400, DuplicateMessage(err.keyPattern.value[0]), None))
    else if err.name == CastErrorName then
      Respond(Response(400, InvalidIdMessage, None))
    else
      Respond(Response(FallbackStatus(err), FallbackMessage(err),
        if development then Some(Detail(err.stack, err.message)) else None))
  }

  /**
   * A ValidationError is answered with 400 and all of its messages, whatever
   * else the error carries; each message appears unchanged in the answer.
   */
  lemma ValidationErrorAnswered(err: Error, development: bool, i: nat)
    requires err.name == ValidationErrorName && err.errors.Some?
    requires i < |err.errors.value|
    ensures Handle(err, development).Respond?
    ensures Handle(err, development).response.status == 400
    ensures exists k :: OccursAt(err.errors.value[i], Handle(err, development).response.message, k)
  {
    var k := JoinOffset(err.errors.value, ", ", i);
    assert OccursAt(err.errors.value[i], Join(err.errors.value, ", "), k);
    assert Handle(err, development).response.message == Join(err.errors.value, ", ");
  }

  /**
   * A duplicate key that is not a ValidationError is answered with 400 and
   * "<Field> already exists": the first key with its first letter upper-cased.
   */
  lemma DuplicateKeyAnswered(err: Error, development: bool)
    requires err.name != ValidationErrorName && err.code == Some(DuplicateKeyCode)
    requires err.keyPattern.Some? && err.keyPattern.value != []
    ensures var f := err.keyPattern.value[0];
      var o := Handle(err, development);
      && o.Respond? && o.response.status == 400
      && |o.response.message| == |f| + |" already exists"|
      && o.response.message[|f|..] == " already exists"
      && (f != [] ==> o.response.message[0] == UpperAscii(f[0]) && o.response.message[1..|f|] == f[1..])
  {
    var f := err.keyPattern.value[0];
    var m := Handle(err, development).response.message;
    assert m == Capitalize(f) + " already exists";
    if f != [] {
      assert m[1..|f|] == Capitalize(f)[1..];
    }
  }

  /** The fallback keeps a non-zero `statusCode` and a non-empty `message`, and shows detail only in development. */
  lemma FallbackAnswered(err: Error, development: bool)
    requires IsFallback(err)
    requires err.statusCode.Some? && err.statusCode.value != 0 && err.message != ""
    ensures Handle(err, development) ==
      Respond(Response(err.statusCode.value, err.message,
        if development then Some(Detail(err.stack, err.message)) else None))
  {
  }

  /**
   * An error without a status code but with a message, such as a failed
   * query thrown as `new Error("connection refused")`, is answered with 500
   * and its own message.
   */
  lemma UnstatusedErrorAnswered(err: Error, development: bool)
    requires IsFallback(err)
    requires err.statusCode.None? || err.statusCode.value == 0
    requires err.message != ""
    ensures Handle(err, development) ==
      Respond(Response(500, err.message,
        if development then Some(Detail(err.stack, err.message)) else None))
  {
  }

  /**
   * An error with neither a status nor a message, such as one thrown as
   * `new Error()`, is answered with 500 and the default message.
   */
  lemma PlainErrorAnswered(err: Error, development: bool)
    requires IsFallback(err)
    requires err.statusCode.None? || err.statusCode.value == 0
    requires err.message == ""
    ensures Handle(err, development) ==
      Respond(Response(500, DefaultMessage,
        if development then Some(Detail(err.stack, "")) else None))
  {
  }
}
