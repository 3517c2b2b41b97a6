/**
 * The booking schema (models/Booking.js): the stored booking record, its
 * invariant, and the validation a booking document goes through before it
 * is stored, including the hook that rejects a check-out that is not after
 * the check-in.
 */
module BookingModel {
  import opened Wrappers
  import opened Js
  import opened ObjectIds
  import opened Schema

  const BookingStatuses: seq<string> := ["pending", "confirmed", "checked-in", "completed", "cancelled"]
  const DefaultBookingStatus: string := "pending"
  const DateOrderMessage: string := "Check-out date must be after check-in date"

  /**
   * A stored booking. Dates are timestamps; `notes` is `None` when the
   * stored value is `null`.
   */
  datatype Booking = Booking(
    guestId: Id,
    roomId: Id,
    checkIn: int,
    checkOut: int,
    status: string,
    totalPrice: real,
    notes: Option<string>,
    createdAt: int)

  /** The record invariant: a known status, a price of at least 0, and check-out after check-in. */
  predicate ValidBooking(b: Booking) {
    && b.status in BookingStatuses
    && b.totalPrice >= 0.0
    && b.checkIn < b.checkOut
  }

  /** A booking document being assembled or updated, path by path. */
  datatype BookingDoc = BookingDoc(
    guestId: Slot<Id>,
    roomId: Slot<Id>,
    checkIn: Slot<int>,
    checkOut: Slot<int>,
    status: Slot<string>,
    totalPrice: Slot<real>,
    notes: Slot<string>,
    castErrors: seq<FieldError>)

  const NewBookingDoc: BookingDoc := BookingDoc(Unset, Unset, Unset, Unset, Unset, Unset, Unset, [])

  /** The document of a stored booking, as it is loaded before an update. */
  function BookingDocOf(b: Booking): BookingDoc {
    BookingDoc(Set(b.guestId), Set(b.roomId), Set(b.checkIn), Set(b.checkOut), Set(b.status),
      Set(b.totalPrice), if b.notes.Some? then Set(b.notes.value) else Nil, [])
  }

  /** Assigning an identifier the caller has already cast. */
  function SetGuestId(d: BookingDoc, id: Id): BookingDoc {
    d.(guestId := Set(id))
  }

  function SetRoomId(d: BookingDoc, id: Id): BookingDoc {
    d.(roomId := Set(id))
  }

  /** Assigning `new Date(x)`, given as its timestamp (`None` for an Invalid Date). */
  function SetCheckIn(d: BookingDoc, t: Option<int>): BookingDoc {
    var c := CastParsed(t);
    d.(checkIn := Put(d.checkIn, c), castErrors := NoteCast(d.castErrors, c, "date", "checkIn"))
  }

  function SetCheckOut(d: BookingDoc, t: Option<int>): BookingDoc {
    var c := CastParsed(t);
    d.(checkOut := Put(d.checkOut, c), castErrors := NoteCast(d.castErrors, c, "date", "checkOut"))
  }

  function SetStatus(d: BookingDoc, v: Json): BookingDoc {
    var c := CastText(v);
    d.(status := Put(d.status, c), castErrors := NoteCast(d.castErrors, c, "string", "status"))
  }

  /** Assigning `Number(x)` (`None` for NaN). */
  function SetTotalPrice(d: BookingDoc, n: Option<real>): BookingDoc {
    var c := CastParsed(n);
    d.(totalPrice := Put(d.totalPrice, c), castErrors := NoteCast(d.castErrors, c, "Number", "totalPrice"))
  }

  function SetNotes(d: BookingDoc, v: Json): BookingDoc {
    var c := CastText(v);
    d.(notes := Put(d.notes, c), castErrors := NoteCast(d.castErrors, c, "string", "notes"))
  }

  /**
   * The `pre('validate')` hook: when both dates are present and check-out is
   * not after check-in, `checkOut` is invalidated with the ordering message;
   * otherwise the hook adds nothing.
   */
  function DateOrderHook(d: BookingDoc): (errs: seq<FieldError>)
    ensures errs != [] <==> d.checkIn.Set? && d.checkOut.Set? && d.checkOut.v <= d.checkIn.v
    ensures errs == [] || errs == [FieldError("checkOut", DateOrderMessage)]
  {
    if d.checkIn.Set? && d.checkOut.Set? && d.checkOut.v <= d.checkIn.v then
      [FieldError("checkOut", DateOrderMessage)]
    else []
  }

  /** `status`: one of the booking states; an unset status takes the default. */
  function StatusCheck(s: Slot<string>): seq<FieldError> {
    match s
    case Unset => []
    case Nil => [FieldError("status", EnumMessage("null", "status"))]
    case Set(v) => if v in BookingStatuses then [] else [FieldError("status", EnumMessage(v, "status"))]
  }

  /** `totalPrice`: required, then at least 0. */
  function PriceCheck(s: Slot<real>): seq<FieldError> {
    if !s.Set? then [FieldError("totalPrice", "Total price is required")]
    else if s.v < 0.0 then [FieldError("totalPrice", "Total price cannot be negative")]
    else []
  }

  /** The path validators' errors, in schema order. */
  function PathErrors(d: BookingDoc): seq<FieldError> {
    Required("guestId", d.guestId, "Guest ID is required")
    + Required("roomId", d.roomId, "Room ID is required")
    + Required("checkIn", d.checkIn, "Check-in date is required")
    + Required("checkOut", d.checkOut, "Check-out date is required")
    + StatusCheck(d.status)
    + PriceCheck(d.totalPrice)
  }

  /** The errors `validate()` reports: failed casts, then the hook, then the path validators. */
  function BookingErrors(d: BookingDoc): seq<FieldError> {
    AddErrors(AddErrors(d.castErrors, DateOrderHook(d)), PathErrors(d))
  }

  /** When validation lets a booking document through, stated path by path. */
  predicate Acceptable(d: BookingDoc) {
    && d.castErrors == []
    && d.guestId.Set? && d.roomId.Set?
    && d.checkIn.Set? && d.checkOut.Set? && d.checkIn.v < d.checkOut.v
    && !d.status.Nil? && (d.status.Set? ==> d.status.v in BookingStatuses)
    && d.totalPrice.Set? && d.totalPrice.v >= 0.0
  }

  /** Validation reports no error exactly on the acceptable documents. */
  lemma BookingErrorsEmpty(d: BookingDoc)
    ensures BookingErrors(d) == [] <==> Acceptable(d)
  {
    AddErrorsEmpty(d.castErrors, DateOrderHook(d));
    AddErrorsEmpty(AddErrors(d.castErrors, DateOrderHook(d)), PathErrors(d));
  }

  /**
   * Validation of a booking document: either the booking that is stored,
   * with the defaults for `status` and `notes`, or the errors of every
   * failing path.
   */
  function ValidateBooking(d: BookingDoc, createdAt: int): (r: Result<Booking, seq<FieldError>>)
    ensures r.Ok? <==> Acceptable(d)
    ensures r.Ok? ==> ValidBooking(r.value)
    ensures r.Ok? ==>
      && r.value.guestId == d.guestId.v
      && r.value.roomId == d.roomId.v
      && r.value.checkIn == d.checkIn.v
      && r.value.checkOut == d.checkOut.v
      && r.value.status == (if d.status.Set? then d.status.v else DefaultBookingStatus)
      && r.value.totalPrice == d.totalPrice.v
      && r.value.notes == (match d.notes case Unset => Some("") case Nil => None case Set(s) => Some(s))
      && r.value.createdAt == createdAt
    ensures r.Err? ==> r.error != [] && r.error == BookingErrors(d)
  {
    BookingErrorsEmpty(d);
    var errs := BookingErrors(d);
    if errs != [] then Err(errs)
    else
      Ok(Booking(
        d.guestId.v,
        d.roomId.v,
        d.checkIn.v,
        d.checkOut.v,
        if d.status.Set? then d.status.v else DefaultBookingStatus,
        d.totalPrice.v,
        match d.notes case Unset => Some("") case Nil => None case Set(s) => Some(s),
        createdAt))
  }

  /**
   * A document whose dates are out of order is rejected, and unless a failed
   * cast already claimed `checkOut`, the hook's ordering message is among the
   * errors, on `checkOut`.
   */
  lemma DateOrderRejected(d: BookingDoc, createdAt: int)
    requires d.checkIn.Set? && d.checkOut.Set? && d.checkOut.v <= d.checkIn.v
    requires !HasPath(d.castErrors, "checkOut")
    ensures ValidateBooking(d, createdAt).Err?
    ensures FieldError("checkOut", DateOrderMessage) in ValidateBooking(d, createdAt).error
  {
    var e := FieldError("checkOut", DateOrderMessage);
    var first := AddErrors(d.castErrors, DateOrderHook(d));
    assert DateOrderHook(d) == [e];
    assert [e][1..] == [];
    assert AddError(d.castErrors, e) == d.castErrors + [e];
    assert AddErrors(d.castErrors, [e]) == AddErrors(AddError(d.castErrors, e), []);
    assert first == d.castErrors + [FieldError("checkOut", DateOrderMessage)];
    assert first[|d.castErrors|] == FieldError("checkOut", DateOrderMessage);
    var errs := BookingErrors(d);
    assert errs[..|first|] == first;
    assert errs[|d.castErrors|] == FieldError("checkOut", DateOrderMessage);
  }

  /** Saving a stored booking without changing it succeeds and stores the same booking. */
  lemma BookingRevalidates(b: Booking)
    requires ValidBooking(b)
    ensures ValidateBooking(BookingDocOf(b), b.createdAt) == Ok(b)
  {
  }
}
