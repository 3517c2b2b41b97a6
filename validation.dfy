/**
 * The request validators (middleware/validation.js). Each one either lets
 * the request through (`Next`), answers 400 with a fixed message
 * (`Reject`), or throws (`Throws`), in which case the error handler answers.
 * Checks run in a fixed order and the first failing one decides the message.
 */
module Validation {
  import opened Wrappers
  import opened Strings
  import opened Js
  import opened ObjectIds
  import Email

  datatype Verdict = Next | Reject(message: string) | Throws(message: string)

  const RoomTypeList: seq<string> := ["single", "double", "deluxe", "suite"]
  const RoomStatusList: seq<string> := ["available", "occupied", "maintenance"]
  const BookingStatusList: seq<string> := ["pending", "confirmed", "checked-in", "completed", "cancelled"]

  const RoomFieldsMessage: string := "Please provide number, type, price, and capacity"
  const PriceMessage: string := "Price must be a positive number"
  const CapacityMessage: string := "Capacity must be a positive number"
  const TypeMessage: string := "Type must be one of: single, double, deluxe, suite"
  const RoomStatusMessage: string := "Status must be one of: available, occupied, maintenance"
  const GuestFieldsMessage: string := "Please provide name, email, phone, and address"
  const EmailMessage: string := "Please provide a valid email address"
  const NameMessage: string := "Name must be at least 2 characters"
  const NameTrimError: string := "name.trim is not a function"
  const CheckInFormatMessage: string := "Invalid checkIn date format. Use YYYY-MM-DD"
  const CheckOutFormatMessage: string := "Invalid checkOut date format. Use YYYY-MM-DD"
  const DateOrderMessage: string := "Check-out date must be after check-in date"
  const TotalPriceMessage: string := "Total price must be a positive number"
  const BookingStatusMessage: string := "Status must be one of: pending, confirmed, checked-in, completed, cancelled"
  const IdMessage: string := "Invalid ID format"
  const PageMessage: string := "Page must be a positive number"
  const LimitMessage: string := "Limit must be between 1 and 100"

  // ---------------------------------------------------------------- validateRequired

  /** A required field counts as missing when it is falsy or prints as blank. */
  predicate IsMissing(v: Json) {
    !Truthy(v) || PrintsBlank(v)
  }

  /** The missing fields among `fields`, in the order they are listed. */
  function MissingFields(body: Body, fields: seq<string>): seq<string>
  {
    if fields == [] then []
    else
      var last := fields[|fields| - 1];
      MissingFields(body, fields[..|fields| - 1]) + (if IsMissing(Get(body, last)) then [last] else [])
  }

  /** A field is reported missing exactly when it is listed and missing from the body. */
  lemma {:induction false} MissingFieldsMembers(body: Body, fields: seq<string>)
    ensures forall f :: f in MissingFields(body, fields) <==> f in fields && IsMissing(Get(body, f))
  {
    if fields != [] {
      var init := fields[..|fields| - 1];
      MissingFieldsMembers(body, init);
      assert fields == init + [fields[|fields| - 1]];
    }
  }

  /** The report keeps the order of the list: checking `a + b` reports `a`'s missing fields, then `b`'s. */
  lemma {:induction false} MissingFieldsAppend(body: Body, a: seq<string>, b: seq<string>)
    ensures MissingFields(body, a + b) == MissingFields(body, a) + MissingFields(body, b)
    decreases |b|
  {
    if b == [] {
      assert a + b == a;
    } else {
      var init := b[..|b| - 1];
      MissingFieldsAppend(body, a, init);
      assert (a + b)[..|a + b| - 1] == a + init;
    }
  }

  /**
   * `validateRequired(fields)`: collects the missing fields one by one and
   * rejects with all of them, joined by ", ", or lets the request through
   * when none is missing.
   */
  method ValidateRequired(body: Body, fields: seq<string>) returns (v: Verdict)
    ensures v.Next? <==> MissingFields(body, fields) == []
    ensures v.Next? || v == Reject("Missing required fields: " + Join(MissingFields(body, fields), ", "))
  {
    var missing: seq<string> := [];
    var i := 0;
    while i < |fields|
      invariant 0 <= i <= |fields|
      invariant missing == MissingFields(body, fields[..i])
    {
      var field := fields[i];
      assert fields[..i + 1][..i] == fields[..i];
      if IsMissing(Get(body, field)) {
        missing := missing + [field];
      }
      i := i + 1;
    }
    assert fields[..|fields|] == fields;
    if |missing| > 0 {
      return Reject("Missing required fields: " + Join(missing, ", "));
    }
    return Next;
  }

  // ---------------------------------------------------------------- rooms

  /** `typeof v === 'number' && v >= bound`. */
  predicate NumberAtLeast(v: Json, bound: real) {
    v.Num? && v.n >= bound
  }

  /** What `validateRoomCreate` lets through, stated as one condition. */
  predicate RoomCreateAccepted(body: Body) {
    && Truthy(Get(body, "number"))
    && NumberAtLeast(Get(body, "price"), 0.0)
    && NumberAtLeast(Get(body, "capacity"), 1.0)
    && IsOneOf(Get(body, "type"), RoomTypeList)
  }

  /** `validateRoomCreate`: presence, then price, then capacity, then type. */
  function ValidateRoomCreate(body: Body): (v: Verdict)
    ensures v.Next? <==> RoomCreateAccepted(body)
    ensures !v.Throws?
    ensures v == Reject(RoomFieldsMessage) <==>
      !Truthy(Get(body, "number")) || !Truthy(Get(body, "type"))
      || Get(body, "price").Undefined? || !Truthy(Get(body, "capacity"))
    ensures v == Reject(TypeMessage) ==> !IsOneOf(Get(body, "type"), RoomTypeList)
  {
    var number, kind, price, capacity := Get(body, "number"), Get(body, "type"), Get(body, "price"), Get(body, "capacity");
    if !Truthy(number) || !Truthy(kind) || price.Undefined? || !Truthy(capacity) then Reject(RoomFieldsMessage)
    else if !NumberAtLeast(price, 0.0) then Reject(PriceMessage)
    else if !NumberAtLeast(capacity, 1.0) then Reject(CapacityMessage)
    else if !IsOneOf(kind, RoomTypeList) then Reject(TypeMessage)
    else Next
  }

  /** What `validateRoomUpdate` lets through: every rule applies only to a field that is present. */
  predicate RoomUpdateAccepted(body: Body) {
    && (Get(body, "price").Undefined? || NumberAtLeast(Get(body, "price"), 0.0))
    && (Get(body, "capacity").Undefined? || NumberAtLeast(Get(body, "capacity"), 1.0))
    && (!Truthy(Get(body, "type")) || IsOneOf(Get(body, "type"), RoomTypeList))
    && (!Truthy(Get(body, "status")) || IsOneOf(Get(body, "status"), RoomStatusList))
  }

  /** `validateRoomUpdate`: price, then capacity, then type, then status. */
  function ValidateRoomUpdate(body: Body): (v: Verdict)
    ensures v.Next? <==> RoomUpdateAccepted(body)
    ensures !v.Throws?
    ensures v == Reject(PriceMessage) <==> !Get(body, "price").Undefined? && !NumberAtLeast(Get(body, "price"), 0.0)
  {
    var price, capacity, kind, status := Get(body, "price"), Get(body, "capacity"), Get(body, "type"), Get(body, "status");
    if !price.Undefined? && !NumberAtLeast(price, 0.0) then Reject(PriceMessage)
    else if !capacity.Undefined? && !NumberAtLeast(capacity, 1.0) then Reject(CapacityMessage)
    else if Truthy(kind) && !IsOneOf(kind, RoomTypeList) then Reject(TypeMessage)
    else if Truthy(status) && !IsOneOf(status, RoomStatusList) then Reject(RoomStatusMessage)
    else Next
  }

  /** An empty update is always let through. */
  lemma EmptyRoomUpdateAccepted()
    ensures ValidateRoomUpdate(map[]) == Next
  {
  }

  // ---------------------------------------------------------------- guests

  /**
   * `emailRegex.test(v)`, which tests the printed form `String(v)`. A value
   * whose printing is outside this model (an array holding a number that
   * is not a plain integer) is taken not to match; a number alone never
   * matches, since its printed form has no `@`.
   */
  predicate EmailMatches(v: Json) {
    Printable(v) && Email.IsEmail(Print(v))
  }

  /** A value whose printed form matches is truthy: no falsy value prints with an `@`. */
  lemma MatchedEmailTruthy(v: Json)
    ensures EmailMatches(v) ==> Truthy(v)
  {
    if EmailMatches(v) {
      var s := Print(v);
      assert s[Email.FirstAt(s)] == '@';
    }
  }

  /** `name.trim().length < 2`, which counts UTF-16 code units and throws when `name` is not a string. */
  function NameCheck(name: Json): (v: Verdict)
    ensures v.Next? <==> name.Str? && Utf16Length(Trim(name.s)) >= 2
    ensures v.Throws? <==> !name.Str?
  {
    if !name.Str? then Throws(NameTrimError)
    else if Utf16Length(Trim(name.s)) < 2 then Reject(NameMessage)
    else Next
  }

  /** A one-character name outside the Basic Multilingual Plane has JavaScript length 2 and passes. */
  lemma SupplementaryNameAccepted()
    ensures NameCheck(Str("\U{1F600}")) == Next
  {
    TrimUnspaced("\U{1F600}");
  }

  /**
   * An array is tested as its printed form: `["a@b.c", null]` prints as
   * "a@b.c," and matches.
   */
  lemma EmailArrayWithNullMatches()
    ensures EmailMatches(Arr([Str("a@b.c"), Null]))
  {
    var items := [Str("a@b.c"), Null];
    var parts := seq(|items|, i requires 0 <= i < |items| =>
      if items[i].Undefined? || items[i].Null? then "" else Print(items[i]));
    assert parts == ["a@b.c", ""];
    assert Join(parts, ",") == "a@b.c,";
    var s := "a@b.c,";
    assert s[..1] == "a" && s[2..3] == "b" && s[4..] == "c,";
    Email.IsEmailComplete(s, 1, 3);
  }

  /** What `validateGuestCreate` lets through, stated as one condition. */
  predicate GuestCreateAccepted(body: Body) {
    && EmailMatches(Get(body, "email"))
    && Truthy(Get(body, "phone")) && Truthy(Get(body, "address"))
    && Get(body, "name").Str? && Utf16Length(Trim(Get(body, "name").s)) >= 2
  }

  /** Every guest that passes the combined condition has all four fields present. */
  lemma AcceptedGuestComplete(body: Body)
    ensures GuestCreateAccepted(body) ==>
      && Truthy(Get(body, "name")) && Truthy(Get(body, "email"))
      && Truthy(Get(body, "phone")) && Truthy(Get(body, "address"))
  {
    MatchedEmailTruthy(Get(body, "email"));
  }

  /** `validateGuestCreate`: presence, then the e-mail shape, then the trimmed name's length. */
  function ValidateGuestCreate(body: Body): (v: Verdict)
    ensures v.Next? <==> GuestCreateAccepted(body)
    ensures v == Reject(GuestFieldsMessage) <==>
      !Truthy(Get(body, "name")) || !Truthy(Get(body, "email"))
      || !Truthy(Get(body, "phone")) || !Truthy(Get(body, "address"))
    ensures v == Reject(EmailMessage) ==> !EmailMatches(Get(body, "email"))
    ensures v.Throws? ==> Truthy(Get(body, "name")) && !Get(body, "name").Str?
  {
    var name, email, phone, address := Get(body, "name"), Get(body, "email"), Get(body, "phone"), Get(body, "address");
    AcceptedGuestComplete(body);
    assert |GuestFieldsMessage| != |EmailMessage| && |GuestFieldsMessage| != |NameMessage|;
    if !Truthy(name) || !Truthy(email) || !Truthy(phone) || !Truthy(address) then Reject(GuestFieldsMessage)
    else if !EmailMatches(email) then Reject(EmailMessage)
    else NameCheck(name)
  }

  /** What `validateGuestUpdate` lets through: each rule applies only to a field that is present. */
  predicate GuestUpdateAccepted(body: Body) {
    && (!Truthy(Get(body, "email")) || EmailMatches(Get(body, "email")))
    && (!Truthy(Get(body, "name")) || (Get(body, "name").Str? && Utf16Length(Trim(Get(body, "name").s)) >= 2))
  }

  /** `validateGuestUpdate`: the e-mail shape, then the trimmed name's length. */
  function ValidateGuestUpdate(body: Body): (v: Verdict)
    ensures v.Next? <==> GuestUpdateAccepted(body)
    ensures v.Throws? ==> Truthy(Get(body, "name")) && !Get(body, "name").Str?
  {
    var email, name := Get(body, "email"), Get(body, "name");
    if Truthy(email) && !EmailMatches(email) then Reject(EmailMessage)
    else if Truthy(name) then NameCheck(name)
    else Next
  }

  // ---------------------------------------------------------------- bookings

  /**
   * What `validateBookingCreate` lets through, stated as one condition;
   * `dateOf(v)` is the timestamp of `new Date(v)`, `None` for an Invalid Date.
   */
  predicate BookingCreateAccepted(body: Body, dateOf: Json -> Option<int>) {
    && Truthy(Get(body, "guestId")) && Truthy(Get(body, "roomId"))
    && Truthy(Get(body, "checkIn")) && Truthy(Get(body, "checkOut"))
    && dateOf(Get(body, "checkIn")).Some? && dateOf(Get(body, "checkOut")).Some?
    && dateOf(Get(body, "checkIn")).value < dateOf(Get(body, "checkOut")).value
    && Get(body, "totalPrice").Num? && Get(body, "totalPrice").n > 0.0
  }

  /**
   * `validateBookingCreate`: the five fields one by one, then each date's
   * format, then their order, then the price.
   */
  function ValidateBookingCreate(body: Body, dateOf: Json -> Option<int>): (v: Verdict)
    ensures v.Next? <==> BookingCreateAccepted(body, dateOf)
    ensures !v.Throws?
    ensures !Truthy(Get(body, "guestId")) ==> v == Reject("guestId is required")
    ensures v == Reject(DateOrderMessage) <==>
      && Truthy(Get(body, "guestId")) && Truthy(Get(body, "roomId"))
      && Truthy(Get(body, "checkIn")) && Truthy(Get(body, "checkOut"))
      && !Get(body, "totalPrice").Undefined? && !Get(body, "totalPrice").Null?
      && dateOf(Get(body, "checkIn")).Some? && dateOf(Get(body, "checkOut")).Some?
      && dateOf(Get(body, "checkOut")).value <= dateOf(Get(body, "checkIn")).value
  {
    var guestId, roomId, checkIn, checkOut, totalPrice :=
      Get(body, "guestId"), Get(body, "roomId"), Get(body, "checkIn"), Get(body, "checkOut"), Get(body, "totalPrice");
    if !Truthy(guestId) then Reject("guestId is required")
    else if !Truthy(roomId) then Reject("roomId is required")
    else if !Truthy(checkIn) then Reject("checkIn is required")
    else if !Truthy(checkOut) then Reject("checkOut is required")
    else if totalPrice.Undefined? || totalPrice.Null? then Reject("totalPrice is required")
    else if dateOf(checkIn).None? then Reject(CheckInFormatMessage)
    else if dateOf(checkOut).None? then Reject(CheckOutFormatMessage)
    else if dateOf(checkOut).value <= dateOf(checkIn).value then Reject(DateOrderMessage)
    else if !totalPrice.Num? || totalPrice.n <= 0.0 then Reject(TotalPriceMessage)
    else Next
  }

  /** Equal dates are rejected: check-out must be strictly after check-in. */
  lemma SameDayRejected(body: Body, dateOf: Json -> Option<int>)
    requires dateOf(Get(body, "checkIn")).Some?
    requires dateOf(Get(body, "checkIn")) == dateOf(Get(body, "checkOut"))
    ensures !ValidateBookingCreate(body, dateOf).Next?
  {
  }

  /**
   * `checkOutDate <= checkInDate` on two `Date` objects; an Invalid Date
   * compares as NaN, so the comparison is false.
   */
  predicate OutNotAfterIn(checkIn: Option<int>, checkOut: Option<int>) {
    checkIn.Some? && checkOut.Some? && checkOut.value <= checkIn.value
  }

  /** What `validateBookingUpdate` lets through: each rule applies only to fields that are present. */
  predicate BookingUpdateAccepted(body: Body, dateOf: Json -> Option<int>) {
    && !(Truthy(Get(body, "checkIn")) && Truthy(Get(body, "checkOut"))
         && OutNotAfterIn(dateOf(Get(body, "checkIn")), dateOf(Get(body, "checkOut"))))
    && (Get(body, "totalPrice").Undefined? || (Get(body, "totalPrice").Num? && Get(body, "totalPrice").n > 0.0))
    && (!Truthy(Get(body, "status")) || IsOneOf(Get(body, "status"), BookingStatusList))
  }

  /** `validateBookingUpdate`: date order (only with both dates), then price, then status. */
  function ValidateBookingUpdate(body: Body, dateOf: Json -> Option<int>): (v: Verdict)
    ensures v.Next? <==> BookingUpdateAccepted(body, dateOf)
    ensures !v.Throws?
    ensures !Truthy(Get(body, "checkIn")) || !Truthy(Get(body, "checkOut")) ==> v != Reject(DateOrderMessage)
  {
    var checkIn, checkOut, totalPrice, status :=
      Get(body, "checkIn"), Get(body, "checkOut"), Get(body, "totalPrice"), Get(body, "status");
    if Truthy(checkIn) && Truthy(checkOut) && OutNotAfterIn(dateOf(checkIn), dateOf(checkOut)) then
      Reject(DateOrderMessage)
    else if !totalPrice.Undefined? && (!totalPrice.Num? || totalPrice.n <= 0.0) then Reject(TotalPriceMessage)
    else if Truthy(status) && !IsOneOf(status, BookingStatusList) then Reject(BookingStatusMessage)
    else Next
  }

  // ---------------------------------------------------------------- ids and pagination

  /** `validateMongoId`: exactly 24 hexadecimal digits, in either case. */
  function ValidateMongoId(id: string): (v: Verdict)
    ensures v.Next? <==> |id| == 24 && forall i :: 0 <= i < |id| ==> IsHexDigit(id[i])
    ensures v.Next? <==> CastObjectId(Str(id)).Some?
    ensures !v.Next? ==> v == Reject(IdMessage)
  {
    if IsObjectIdText(id) then Next else Reject(IdMessage)
  }

  /**
   * A query parameter: absent (the default applies) or given, with the
   * value `parseInt` makes of it (`None` for NaN).
   */
  datatype Param = Omitted | Given(asInt: Option<int>)

  /** `parseInt` of the parameter, or of its default when it is absent. */
  function ParsedOr(p: Param, default: int): Option<int> {
    if p.Omitted? then Some(default) else p.asInt
  }

  /** `validatePagination`: page at least 1, then limit between 1 and 100; defaults 1 and 10. */
  function ValidatePagination(page: Param, limit: Param): (v: Verdict)
    ensures v.Next? <==>
      && (page.Omitted? || (page.asInt.Some? && page.asInt.value >= 1))
      && (limit.Omitted? || (limit.asInt.Some? && 1 <= limit.asInt.value <= 100))
    ensures v == Reject(PageMessage) <==> page.Given? && (page.asInt.None? || page.asInt.value < 1)
    ensures !v.Throws?
  {
    var pageNum, limitNum := ParsedOr(page, 1), ParsedOr(limit, 10);
    if pageNum.None? || pageNum.value < 1 then Reject(PageMessage)
    else if limitNum.None? || limitNum.value < 1 || limitNum.value > 100 then Reject(LimitMessage)
    else Next
  }
}
