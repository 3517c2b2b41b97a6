/**
 * The booking handlers (controllers/bookingController.js). Unlike the room
 * and guest handlers, these pass every error they do not answer themselves
 * on to the error handler: a malformed identifier (a CastError) and a
 * failed validation (a ValidationError), both of which it answers with 400.
 */
module BookingController {
  import opened Wrappers
  import opened Js
  import opened ObjectIds
  import opened Schema
  import opened ErrorHandler
  import RoomModel
  import opened GuestModel
  import opened BookingModel
  import opened Listing
  import opened Store
  import opened BookingQueries
  import Validation

  const BookingFieldsMessage: string := "Please provide guestId, roomId, checkIn, checkOut, and totalPrice"
  const BookingNotFound: string := "Booking not found"
  const BookingGuestNotFound: string := "Guest not found"
  const BookingRoomNotFound: string := "Room not found"
  const BookingDeleted: string := "Booking deleted successfully"

  /**
   * `getAllBookings`: page `page` of `limit` of the bookings with the
   * status filter (`""`, a falsy query value, means none), newest first,
   * with the number of matching bookings and of pages.
   */
  function GetAllBookings(bookings: map<Id, Booking>, status: string, page: nat, limit: nat): (p: Page<Booking>)
    requires page >= 1 && limit >= 1
    ensures p.total == |Chosen(bookings, None, status)|
    ensures p.page == page && p.limit == limit && p.pages == PageCount(p.total, limit)
    ensures p.data == Window(NewestBookings(bookings, None, status), Skip(page, limit), limit)
    ensures |p.data| <= limit
    ensures AllWanted(bookings, None, status, p.data)
    ensures NewestBookingsFirst(p.data)
  {
    var bs := NewestBookings(bookings, None, status);
    WindowOfBookings(bookings, None, status, bs, Skip(page, limit), limit);
    Paginate(bs, page, limit)
  }

  /** `getBookingById`: the stored booking, 404 when there is none; a malformed id is passed on. */
  function GetBookingById(bookings: map<Id, Booking>, id: string): (r: Reply<Booking>)
    ensures r.Success? <==> IsObjectIdText(id) && Canonical(id) in bookings
    ensures r.Success? ==> r.status == 200 && r.data == bookings[Canonical(id)]
    ensures IsObjectIdText(id) && Canonical(id) !in bookings ==> r == Failure(404, BookingNotFound)
    ensures r.Forward? <==> !IsObjectIdText(id)
    ensures r.Forward? ==> r.error.name == CastErrorName
  {
    match FindById(bookings, Str(id))
    case Malformed => Forward(CastErrorOf("Booking", "_id", Str(id)))
    case Missing => Failure(404, BookingNotFound)
    case Found(_, booking) => Success(200, None, booking)
  }

  /** An error the booking handlers pass on: a CastError, or a ValidationError that lists its errors. */
  predicate Passable(err: Error) {
    && err.code.None?
    && (err.name == CastErrorName || (err.name == ValidationErrorName && err.errors.Some?))
  }

  /** Every error the booking handlers pass on is answered by the error handler with 400. */
  lemma PassedErrorsAnswered(err: Error, development: bool)
    requires Passable(err)
    ensures Handle(err, development).Respond?
    ensures Handle(err, development).response.status == 400
    ensures err.name == CastErrorName ==> Handle(err, development).response.message == InvalidIdMessage
  {
  }

  // ---------------------------------------------------------------- create

  /** The presence check of `createBooking`: guestId, roomId, checkIn, checkOut and totalPrice are all truthy. */
  predicate BookingFieldsGiven(body: Body) {
    && Truthy(Get(body, "guestId")) && Truthy(Get(body, "roomId"))
    && Truthy(Get(body, "checkIn")) && Truthy(Get(body, "checkOut"))
    && Truthy(Get(body, "totalPrice"))
  }

  /**
   * The document `Booking.create` builds for the guest and room found:
   * the two dates as `new Date(..)`, `Number(totalPrice)`, `notes || ''`
   * and `status || 'pending'`.
   */
  function CreateBookingDoc(guest: Id, room: Id, body: Body, dateOf: Json -> Option<int>): BookingDoc {
    var notes, status := Get(body, "notes"), Get(body, "status");
    var d1 := SetGuestId(NewBookingDoc, guest);
    var d2 := SetRoomId(d1, room);
    var d3 := SetCheckIn(d2, dateOf(Get(body, "checkIn")));
    var d4 := SetCheckOut(d3, dateOf(Get(body, "checkOut")));
    var d5 := SetTotalPrice(d4, ToNumber(Get(body, "totalPrice")));
    var d6 := SetNotes(d5, if Truthy(notes) then notes else Str(""));
    SetStatus(d6, if Truthy(status) then status else Str(DefaultBookingStatus))
  }

  /**
   * A booking holds the request's values: the guest and room the
   * identifiers name, the two dates, the price as a number, the notes
   * (empty when falsy) and the status ("pending" when falsy).
   */
  predicate CreatedFromRequest(body: Body, dateOf: Json -> Option<int>, b: Booking) {
    var notes, status := Get(body, "notes"), Get(body, "status");
    && CastObjectId(Get(body, "guestId")) == Some(b.guestId)
    && CastObjectId(Get(body, "roomId")) == Some(b.roomId)
    && dateOf(Get(body, "checkIn")) == Some(b.checkIn)
    && dateOf(Get(body, "checkOut")) == Some(b.checkOut)
    && ToNumber(Get(body, "totalPrice")) == Some(b.totalPrice)
    && (if Truthy(notes) then notes.Str? && b.notes == Some(notes.s) else b.notes == Some(""))
    && (if Truthy(status) then status.Str? && b.status == status.s else b.status == DefaultBookingStatus)
  }

  /** A booking document built for a request that validates holds the request's values. */
  lemma CreatedBooking(body: Body, dateOf: Json -> Option<int>, now: int)
    requires CastObjectId(Get(body, "guestId")).Some? && CastObjectId(Get(body, "roomId")).Some?
    requires
      var guest, room := CastObjectId(Get(body, "guestId")).value, CastObjectId(Get(body, "roomId")).value;
      ValidateBooking(CreateBookingDoc(guest, room, body, dateOf), now).Ok?
    ensures
      var guest, room := CastObjectId(Get(body, "guestId")).value, CastObjectId(Get(body, "roomId")).value;
      var b := ValidateBooking(CreateBookingDoc(guest, room, body, dateOf), now).value;
      CreatedFromRequest(body, dateOf, b) && b.createdAt == now
  {
  }

  /**
   * Once the controller's own date check has passed, the schema's date
   * hook has nothing left to reject: the hook's message never comes from
   * a creation.
   */
  lemma CreateDateCheckPrecedesHook(guest: Id, room: Id, body: Body, dateOf: Json -> Option<int>)
    requires !Validation.OutNotAfterIn(dateOf(Get(body, "checkIn")), dateOf(Get(body, "checkOut")))
    ensures DateOrderHook(CreateBookingDoc(guest, room, body, dateOf)) == []
  {
  }

  /**
   * The answer of `createBooking`, given the stored guests and rooms: the
   * presence check, the guest, the room, the order of the dates, then the
   * validation of the new booking.
   */
  function CreateBookingReply(guests: map<Id, Guest>, rooms: map<Id, RoomModel.Room>, body: Body,
                              dateOf: Json -> Option<int>, now: int): (reply: Reply<Booking>)
    ensures reply.Success? ==>
      && reply.status == 201
      && ValidBooking(reply.data)
      && reply.data.guestId in guests && reply.data.roomId in rooms
      && CreatedFromRequest(body, dateOf, reply.data)
      && reply.data.createdAt == now
    ensures reply.Failure? ==> reply.status in {400, 404}
    ensures reply.Forward? ==> Passable(reply.error)
  {
    var guestId, roomId := Get(body, "guestId"), Get(body, "roomId");
    if !BookingFieldsGiven(body) then Failure(400, BookingFieldsMessage)
    else
      match FindById(guests, guestId)
      case Malformed => Forward(CastErrorOf("Guest", "_id", guestId))
      case Missing => Failure(404, BookingGuestNotFound)
      case Found(guest, _) =>
        match FindById(rooms, roomId)
        case Malformed => Forward(CastErrorOf("Room", "_id", roomId))
        case Missing => Failure(404, BookingRoomNotFound)
        case Found(room, _) =>
          if Validation.OutNotAfterIn(dateOf(Get(body, "checkIn")), dateOf(Get(body, "checkOut"))) then
            Failure(400, DateOrderMessage)
          else
            var validated := ValidateBooking(CreateBookingDoc(guest, room, body, dateOf), now);
            if validated.Err? then Forward(ValidationErrorOf("Booking", validated.error))
            else
              CreatedBooking(body, dateOf, now);
              Success(201, None, validated.value)
  }

  /**
   * The answers of `createBooking`, in the order the handler checks: a
   * missing field; an unknown or malformed guest; an unknown or malformed
   * room; dates out of order; a failed validation; otherwise the new
   * booking.
   */
  lemma CreateBookingAnswers(guests: map<Id, Guest>, rooms: map<Id, RoomModel.Room>, body: Body,
                             dateOf: Json -> Option<int>, now: int)
    ensures var reply, guestId, roomId := CreateBookingReply(guests, rooms, body, dateOf, now), Get(body, "guestId"), Get(body, "roomId");
      && (!BookingFieldsGiven(body) ==> reply == Failure(400, BookingFieldsMessage))
      && (BookingFieldsGiven(body) && CastObjectId(guestId).None? ==>
            reply == Forward(CastErrorOf("Guest", "_id", guestId)))
      && (BookingFieldsGiven(body) && CastObjectId(guestId).Some? && CastObjectId(guestId).value !in guests ==>
            reply == Failure(404, BookingGuestNotFound))
      && (BookingFieldsGiven(body) && CastObjectId(guestId).Some? && CastObjectId(guestId).value in guests ==>
            && (CastObjectId(roomId).None? ==> reply == Forward(CastErrorOf("Room", "_id", roomId)))
            && (CastObjectId(roomId).Some? && CastObjectId(roomId).value !in rooms ==>
                  reply == Failure(404, BookingRoomNotFound))
            && (CastObjectId(roomId).Some? && CastObjectId(roomId).value in rooms ==>
                  var validated := ValidateBooking(CreateBookingDoc(CastObjectId(guestId).value,
                                                     CastObjectId(roomId).value, body, dateOf), now);
                  && (Validation.OutNotAfterIn(dateOf(Get(body, "checkIn")), dateOf(Get(body, "checkOut"))) ==>
                        reply == Failure(400, DateOrderMessage))
                  && (!Validation.OutNotAfterIn(dateOf(Get(body, "checkIn")), dateOf(Get(body, "checkOut"))) ==>
                        reply == (if validated.Err? then Forward(ValidationErrorOf("Booking", validated.error))
                                  else Success(201, None, validated.value)))))
  {
  }

  /**
   * A request naming a stored guest and a stored room, with two valid
   * dates in order, a positive price and neither status nor notes, creates
   * a pending booking with empty notes.
   */
  lemma CreateBookingAccepts(guests: map<Id, Guest>, rooms: map<Id, RoomModel.Room>, body: Body,
                             dateOf: Json -> Option<int>, now: int)
    requires CastObjectId(Get(body, "guestId")).Some? && CastObjectId(Get(body, "guestId")).value in guests
    requires CastObjectId(Get(body, "roomId")).Some? && CastObjectId(Get(body, "roomId")).value in rooms
    requires Truthy(Get(body, "checkIn")) && Truthy(Get(body, "checkOut"))
    requires dateOf(Get(body, "checkIn")).Some? && dateOf(Get(body, "checkOut")).Some?
    requires dateOf(Get(body, "checkIn")).value < dateOf(Get(body, "checkOut")).value
    requires Get(body, "totalPrice").Num? && Get(body, "totalPrice").n > 0.0
    requires Get(body, "status") == Undefined && Get(body, "notes") == Undefined
    ensures var reply := CreateBookingReply(guests, rooms, body, dateOf, now);
      && reply.Success? && reply.status == 201
      && reply.data == Booking(CastObjectId(Get(body, "guestId")).value, CastObjectId(Get(body, "roomId")).value,
                               dateOf(Get(body, "checkIn")).value, dateOf(Get(body, "checkOut")).value,
                               DefaultBookingStatus, Get(body, "totalPrice").n, Some(""), now)
  {
  }

  /** `createBooking`: the booking is stored under a fresh identifier when the answer is a success. */
  method CreateBooking(db: Database, body: Body, dateOf: Json -> Option<int>, newId: Id, now: int)
    returns (reply: Reply<Booking>)
    requires db.Valid() && newId !in db.bookings
    modifies db
    ensures db.Valid()
    ensures reply == CreateBookingReply(old(db.guests), old(db.rooms), body, dateOf, now)
    ensures db.bookings == if reply.Success? then old(db.bookings)[newId := reply.data] else old(db.bookings)
    ensures db.rooms == old(db.rooms) && db.guests == old(db.guests)
  {
    reply := CreateBookingReply(db.guests, db.rooms, body, dateOf, now);
    if reply.Success? {
      db.PutBooking(newId, reply.data);
    }
  }

  // ---------------------------------------------------------------- update

  /**
   * The document `updateBooking` saves: the stored booking with guestId,
   * roomId, the dates and status assigned when the request's value is
   * truthy, and totalPrice and notes when it is not undefined, in that
   * order.
   */
  function UpdatedBookingDoc(prior: Booking, body: Body, dateOf: Json -> Option<int>): BookingDoc {
    AssignDetails(AssignDates(AssignRefs(BookingDocOf(prior), body), body, dateOf), body)
  }

  /** The references of an update; a truthy guestId or roomId has already been looked up, so it is an identifier. */
  function AssignRefs(d: BookingDoc, body: Body): BookingDoc {
    var guestId, roomId := Get(body, "guestId"), Get(body, "roomId");
    var d1 := if Truthy(guestId) && CastObjectId(guestId).Some? then SetGuestId(d, CastObjectId(guestId).value) else d;
    if Truthy(roomId) && CastObjectId(roomId).Some? then SetRoomId(d1, CastObjectId(roomId).value) else d1
  }

  /** The dates of an update, each given as `new Date(..)` of the request's value. */
  function AssignDates(d: BookingDoc, body: Body, dateOf: Json -> Option<int>): BookingDoc {
    var checkIn, checkOut := Get(body, "checkIn"), Get(body, "checkOut");
    var d1 := if Truthy(checkIn) then SetCheckIn(d, dateOf(checkIn)) else d;
    if Truthy(checkOut) then SetCheckOut(d1, dateOf(checkOut)) else d1
  }

  /** The status, price and notes of an update. */
  function AssignDetails(d: BookingDoc, body: Body): BookingDoc {
    var status, totalPrice, notes := Get(body, "status"), Get(body, "totalPrice"), Get(body, "notes");
    var d1 := if Truthy(status) then SetStatus(d, status) else d;
    var d2 := if !totalPrice.Undefined? then SetTotalPrice(d1, ToNumber(totalPrice)) else d1;
    if !notes.Undefined? then SetNotes(d2, notes) else d2
  }

  /** Assigning the references touches only guestId and roomId and records no cast error. */
  lemma AssignRefsPaths(d: BookingDoc, body: Body)
    ensures var r, guestId, roomId := AssignRefs(d, body), Get(body, "guestId"), Get(body, "roomId");
      && r.guestId == (if Truthy(guestId) && CastObjectId(guestId).Some? then Set(CastObjectId(guestId).value) else d.guestId)
      && r.roomId == (if Truthy(roomId) && CastObjectId(roomId).Some? then Set(CastObjectId(roomId).value) else d.roomId)
      && r.(guestId := d.guestId, roomId := d.roomId) == d
  {
  }

  /** Assigning the dates touches only the two dates and appends their cast failures. */
  lemma AssignDatesPaths(d: BookingDoc, body: Body, dateOf: Json -> Option<int>)
    ensures var r, checkIn, checkOut := AssignDates(d, body, dateOf), Get(body, "checkIn"), Get(body, "checkOut");
      && r.checkIn == (if Truthy(checkIn) then Put(d.checkIn, CastParsed(dateOf(checkIn))) else d.checkIn)
      && r.checkOut == (if Truthy(checkOut) then Put(d.checkOut, CastParsed(dateOf(checkOut))) else d.checkOut)
      && r.castErrors == d.castErrors
           + CastFailure(Truthy(checkIn), CastParsed(dateOf(checkIn)), "date", "checkIn")
           + CastFailure(Truthy(checkOut), CastParsed(dateOf(checkOut)), "date", "checkOut")
      && r.(checkIn := d.checkIn, checkOut := d.checkOut, castErrors := d.castErrors) == d
  {
    var checkIn, checkOut := Get(body, "checkIn"), Get(body, "checkOut");
    var d1 := if Truthy(checkIn) then SetCheckIn(d, dateOf(checkIn)) else d;
    NoteCastAppends(d.castErrors, Truthy(checkIn), CastParsed(dateOf(checkIn)), "date", "checkIn");
    NoteCastAppends(d1.castErrors, Truthy(checkOut), CastParsed(dateOf(checkOut)), "date", "checkOut");
  }

  /** Assigning status, price and notes touches only those paths and appends their cast failures. */
  lemma AssignDetailsPaths(d: BookingDoc, body: Body)
    ensures var r, status, totalPrice, notes := AssignDetails(d, body), Get(body, "status"), Get(body, "totalPrice"), Get(body, "notes");
      && r.status == (if Truthy(status) then Put(d.status, CastText(status)) else d.status)
      && r.totalPrice == (if !totalPrice.Undefined? then Put(d.totalPrice, CastParsed(ToNumber(totalPrice))) else d.totalPrice)
      && r.notes == (if !notes.Undefined? then Put(d.notes, CastText(notes)) else d.notes)
      && r.castErrors == d.castErrors
           + CastFailure(Truthy(status), CastText(status), "string", "status")
           + CastFailure(!totalPrice.Undefined?, CastParsed(ToNumber(totalPrice)), "Number", "totalPrice")
           + CastFailure(!notes.Undefined?, CastText(notes), "string", "notes")
      && r.(status := d.status, totalPrice := d.totalPrice, notes := d.notes, castErrors := d.castErrors) == d
  {
    var status, totalPrice, notes := Get(body, "status"), Get(body, "totalPrice"), Get(body, "notes");
    var d1 := if Truthy(status) then SetStatus(d, status) else d;
    var d2 := if !totalPrice.Undefined? then SetTotalPrice(d1, ToNumber(totalPrice)) else d1;
    NoteCastAppends(d.castErrors, Truthy(status), CastText(status), "string", "status");
    NoteCastAppends(d1.castErrors, !totalPrice.Undefined?, CastParsed(ToNumber(totalPrice)), "Number", "totalPrice");
    NoteCastAppends(d2.castErrors, !notes.Undefined?, CastText(notes), "string", "notes");
  }

  /** `booking.checkOut <= booking.checkIn` on the updated document. */
  predicate DatesOutOfOrder(d: BookingDoc) {
    d.checkIn.Set? && d.checkOut.Set? && d.checkOut.v <= d.checkIn.v
  }

  /** A reference path: the identifier the request names when it is truthy, the stored one otherwise. */
  predicate RefTaken(v: Json, stored: Id, now: Id) {
    if Truthy(v) then CastObjectId(v) == Some(now) else now == stored
  }

  /** A date path: the date of the request's value when it is truthy, the stored date otherwise. */
  predicate DateTaken(v: Json, date: Option<int>, stored: int, now: int) {
    if Truthy(v) then date == Some(now) else now == stored
  }

  /** The price path: `Number` of the request's value unless it is undefined, the stored price otherwise. */
  predicate PriceTaken(v: Json, stored: real, now: real) {
    if !v.Undefined? then ToNumber(v) == Some(now) else now == stored
  }

  /** The notes path: the request's string, or null, unless it is undefined; the stored notes otherwise. */
  predicate NotesTaken(v: Json, stored: Option<string>, now: Option<string>) {
    if v.Undefined? then now == stored
    else if v.Null? then now == None
    else v.Str? && now == Some(v.s)
  }

  /** What a successful `updateBooking` stores, path by path; the creation time is kept. */
  predicate BookingUpdated(prior: Booking, body: Body, dateOf: Json -> Option<int>, b: Booking) {
    var checkIn, checkOut := Get(body, "checkIn"), Get(body, "checkOut");
    && RefTaken(Get(body, "guestId"), prior.guestId, b.guestId)
    && RefTaken(Get(body, "roomId"), prior.roomId, b.roomId)
    && DateTaken(checkIn, dateOf(checkIn), prior.checkIn, b.checkIn)
    && DateTaken(checkOut, dateOf(checkOut), prior.checkOut, b.checkOut)
    && TextTaken(Get(body, "status"), prior.status, b.status)
    && PriceTaken(Get(body, "totalPrice"), prior.totalPrice, b.totalPrice)
    && NotesTaken(Get(body, "notes"), prior.notes, b.notes)
    && b.createdAt == prior.createdAt
  }

  /** The cast errors of the assignments of an update, in assignment order. */
  function UpdateCastErrors(body: Body, dateOf: Json -> Option<int>): seq<FieldError> {
    var checkIn, checkOut, status, totalPrice, notes :=
      Get(body, "checkIn"), Get(body, "checkOut"), Get(body, "status"), Get(body, "totalPrice"), Get(body, "notes");
    CastFailure(Truthy(checkIn), CastParsed(dateOf(checkIn)), "date", "checkIn")
    + CastFailure(Truthy(checkOut), CastParsed(dateOf(checkOut)), "date", "checkOut")
    + CastFailure(Truthy(status), CastText(status), "string", "status")
    + CastFailure(!totalPrice.Undefined?, CastParsed(ToNumber(totalPrice)), "Number", "totalPrice")
    + CastFailure(!notes.Undefined?, CastText(notes), "string", "notes")
  }

  /** The assignments of an update record no cast error exactly when every assigned value casts. */
  lemma UpdateCastErrorsEmpty(body: Body, dateOf: Json -> Option<int>)
    ensures var checkIn, checkOut, status, totalPrice, notes :=
        Get(body, "checkIn"), Get(body, "checkOut"), Get(body, "status"), Get(body, "totalPrice"), Get(body, "notes");
      UpdateCastErrors(body, dateOf) == [] <==>
        && (Truthy(checkIn) ==> dateOf(checkIn).Some?)
        && (Truthy(checkOut) ==> dateOf(checkOut).Some?)
        && (Truthy(status) ==> CastText(status).Some?)
        && (!totalPrice.Undefined? ==> ToNumber(totalPrice).Some?)
        && (!notes.Undefined? ==> CastText(notes).Some?)
  {
    var checkIn, checkOut, status, totalPrice, notes :=
      Get(body, "checkIn"), Get(body, "checkOut"), Get(body, "status"), Get(body, "totalPrice"), Get(body, "notes");
    var e1 := CastFailure(Truthy(checkIn), CastParsed(dateOf(checkIn)), "date", "checkIn");
    var e2 := CastFailure(Truthy(checkOut), CastParsed(dateOf(checkOut)), "date", "checkOut");
    var e3 := CastFailure(Truthy(status), CastText(status), "string", "status");
    var e4 := CastFailure(!totalPrice.Undefined?, CastParsed(ToNumber(totalPrice)), "Number", "totalPrice");
    var e5 := CastFailure(!notes.Undefined?, CastText(notes), "string", "notes");
    assert |UpdateCastErrors(body, dateOf)| == |e1| + |e2| + |e3| + |e4| + |e5|;
  }

  /**
   * Each assignment of an update touches only its own path, and the
   * update records the cast failures of the values it assigns, in
   * assignment order.
   */
  lemma UpdatedBookingDocPaths(prior: Booking, body: Body, dateOf: Json -> Option<int>)
    ensures var d := UpdatedBookingDoc(prior, body, dateOf);
      var guestId, roomId, checkIn, checkOut, status, totalPrice, notes :=
        Get(body, "guestId"), Get(body, "roomId"), Get(body, "checkIn"), Get(body, "checkOut"),
        Get(body, "status"), Get(body, "totalPrice"), Get(body, "notes");
      && d.guestId == Set(if Truthy(guestId) && CastObjectId(guestId).Some? then CastObjectId(guestId).value else prior.guestId)
      && d.roomId == Set(if Truthy(roomId) && CastObjectId(roomId).Some? then CastObjectId(roomId).value else prior.roomId)
      && d.checkIn == Assigned(prior.checkIn, Truthy(checkIn), CastParsed(dateOf(checkIn)))
      && d.checkOut == Assigned(prior.checkOut, Truthy(checkOut), CastParsed(dateOf(checkOut)))
      && d.status == Assigned(prior.status, Truthy(status), CastText(status))
      && d.totalPrice == Assigned(prior.totalPrice, !totalPrice.Undefined?, CastParsed(ToNumber(totalPrice)))
      && d.notes == (if !notes.Undefined? then Put(BookingDocOf(prior).notes, CastText(notes)) else BookingDocOf(prior).notes)
      && d.castErrors == UpdateCastErrors(body, dateOf)
  {
    var d1 := AssignRefs(BookingDocOf(prior), body);
    var d2 := AssignDates(d1, body, dateOf);
    AssignRefsPaths(BookingDocOf(prior), body);
    AssignDatesPaths(d1, body, dateOf);
    AssignDetailsPaths(d2, body);
    var checkIn, checkOut := Get(body, "checkIn"), Get(body, "checkOut");
    var e1 := CastFailure(Truthy(checkIn), CastParsed(dateOf(checkIn)), "date", "checkIn");
    assert d1.castErrors == [];
    assert [] + e1 == e1;
    assert d2.castErrors == e1 + CastFailure(Truthy(checkOut), CastParsed(dateOf(checkOut)), "date", "checkOut");
  }

  /** A date path after a truthy-guarded assignment whose cast succeeded. */
  lemma AssignedDate(stored: int, v: Json, date: Option<int>, s: Slot<int>)
    requires s == Assigned(stored, Truthy(v), CastParsed(date))
    requires Truthy(v) ==> date.Some?
    ensures s.Set? && DateTaken(v, date, stored, s.v)
  {
  }

  /** The price path after an assignment, made unless the value is undefined, whose cast succeeded. */
  lemma AssignedPrice(stored: real, v: Json, s: Slot<real>)
    requires s == Assigned(stored, !v.Undefined?, CastParsed(ToNumber(v)))
    requires !v.Undefined? ==> ToNumber(v).Some?
    ensures s.Set? && PriceTaken(v, stored, s.v)
  {
  }

  /** The notes path after an assignment, made unless the value is undefined, whose cast succeeded. */
  lemma AssignedNotes(prior: Booking, v: Json, s: Slot<string>)
    requires s == (if !v.Undefined? then Put(BookingDocOf(prior).notes, CastText(v)) else BookingDocOf(prior).notes)
    requires !v.Undefined? ==> CastText(v).Some?
    ensures !s.Unset?
    ensures NotesTaken(v, prior.notes, match s case Unset => Some("") case Nil => None case Set(t) => Some(t))
  {
  }

  /** `UpdatedBookingSaved`, for any document whose paths and cast errors are those of the update. */
  lemma SavedDocHoldsUpdate(prior: Booking, body: Body, dateOf: Json -> Option<int>, d: BookingDoc)
    requires
      var guestId, roomId, checkIn, checkOut, status, totalPrice, notes :=
        Get(body, "guestId"), Get(body, "roomId"), Get(body, "checkIn"), Get(body, "checkOut"),
        Get(body, "status"), Get(body, "totalPrice"), Get(body, "notes");
      && d.guestId == Set(if Truthy(guestId) && CastObjectId(guestId).Some? then CastObjectId(guestId).value else prior.guestId)
      && d.roomId == Set(if Truthy(roomId) && CastObjectId(roomId).Some? then CastObjectId(roomId).value else prior.roomId)
      && d.checkIn == Assigned(prior.checkIn, Truthy(checkIn), CastParsed(dateOf(checkIn)))
      && d.checkOut == Assigned(prior.checkOut, Truthy(checkOut), CastParsed(dateOf(checkOut)))
      && d.status == Assigned(prior.status, Truthy(status), CastText(status))
      && d.totalPrice == Assigned(prior.totalPrice, !totalPrice.Undefined?, CastParsed(ToNumber(totalPrice)))
      && d.notes == (if !notes.Undefined? then Put(BookingDocOf(prior).notes, CastText(notes)) else BookingDocOf(prior).notes)
    requires d.castErrors == UpdateCastErrors(body, dateOf)
    requires Truthy(Get(body, "guestId")) ==> CastObjectId(Get(body, "guestId")).Some?
    requires Truthy(Get(body, "roomId")) ==> CastObjectId(Get(body, "roomId")).Some?
    requires ValidateBooking(d, prior.createdAt).Ok?
    ensures BookingUpdated(prior, body, dateOf, ValidateBooking(d, prior.createdAt).value)
  {
    var checkIn, checkOut, status, totalPrice, notes :=
      Get(body, "checkIn"), Get(body, "checkOut"), Get(body, "status"), Get(body, "totalPrice"), Get(body, "notes");
    UpdateCastErrorsEmpty(body, dateOf);
    AssignedDate(prior.checkIn, checkIn, dateOf(checkIn), d.checkIn);
    AssignedDate(prior.checkOut, checkOut, dateOf(checkOut), d.checkOut);
    AssignedText(prior.status, status, d.status);
    AssignedPrice(prior.totalPrice, totalPrice, d.totalPrice);
    AssignedNotes(prior, notes, d.notes);
  }

  /** A saved update holds the request's values where they were assigned and the stored ones elsewhere. */
  lemma UpdatedBookingSaved(prior: Booking, body: Body, dateOf: Json -> Option<int>)
    requires Truthy(Get(body, "guestId")) ==> CastObjectId(Get(body, "guestId")).Some?
    requires Truthy(Get(body, "roomId")) ==> CastObjectId(Get(body, "roomId")).Some?
    requires ValidateBooking(UpdatedBookingDoc(prior, body, dateOf), prior.createdAt).Ok?
    ensures BookingUpdated(prior, body, dateOf, ValidateBooking(UpdatedBookingDoc(prior, body, dateOf), prior.createdAt).value)
  {
    UpdatedBookingDocPaths(prior, body, dateOf);
    SavedDocHoldsUpdate(prior, body, dateOf, UpdatedBookingDoc(prior, body, dateOf));
  }

  /**
   * The answer of `updateBooking`: the booking (a malformed id is passed
   * on, a missing booking is 404), then the guest and the room when the
   * request names them, then the order of the updated dates, then the
   * validation of the updated booking.
   */
  function UpdateBookingReply(guests: map<Id, Guest>, rooms: map<Id, RoomModel.Room>, bookings: map<Id, Booking>,
                              id: string, body: Body, dateOf: Json -> Option<int>): (reply: Reply<Booking>)
    ensures reply.Success? ==>
      && reply.status == 200
      && IsObjectIdText(id) && Canonical(id) in bookings
      && BookingUpdated(bookings[Canonical(id)], body, dateOf, reply.data)
      && ValidBooking(reply.data)
      && (Truthy(Get(body, "guestId")) ==> reply.data.guestId in guests)
      && (Truthy(Get(body, "roomId")) ==> reply.data.roomId in rooms)
    ensures reply.Failure? ==> reply.status in {400, 404}
    ensures reply.Forward? ==> Passable(reply.error)
  {
    match FindById(bookings, Str(id))
    case Malformed => Forward(CastErrorOf("Booking", "_id", Str(id)))
    case Missing => Failure(404, BookingNotFound)
    case Found(_, prior) =>
      var guestId, roomId := Get(body, "guestId"), Get(body, "roomId");
      var guest, room := FindById(guests, guestId), FindById(rooms, roomId);
      if Truthy(guestId) && guest.Malformed? then Forward(CastErrorOf("Guest", "_id", guestId))
      else if Truthy(guestId) && guest.Missing? then Failure(404, BookingGuestNotFound)
      else if Truthy(roomId) && room.Malformed? then Forward(CastErrorOf("Room", "_id", roomId))
      else if Truthy(roomId) && room.Missing? then Failure(404, BookingRoomNotFound)
      else
        var d := UpdatedBookingDoc(prior, body, dateOf);
        if DatesOutOfOrder(d) then Failure(400, DateOrderMessage)
        else
          var validated := ValidateBooking(d, prior.createdAt);
          if validated.Err? then Forward(ValidationErrorOf("Booking", validated.error))
          else
            UpdatedBookingSaved(prior, body, dateOf);
            Success(200, None, validated.value)
  }

  /**
   * The answers of `updateBooking` in the order the handler checks: the
   * booking, the guest, the room, the order of the merged dates, the
   * validation; otherwise the updated booking.
   */
  lemma UpdateBookingAnswers(guests: map<Id, Guest>, rooms: map<Id, RoomModel.Room>, bookings: map<Id, Booking>,
                             id: string, body: Body, dateOf: Json -> Option<int>)
    ensures var reply, guestId, roomId := UpdateBookingReply(guests, rooms, bookings, id, body, dateOf),
        Get(body, "guestId"), Get(body, "roomId");
      && (!IsObjectIdText(id) ==> reply == Forward(CastErrorOf("Booking", "_id", Str(id))))
      && (IsObjectIdText(id) && Canonical(id) !in bookings ==> reply == Failure(404, BookingNotFound))
      && (IsObjectIdText(id) && Canonical(id) in bookings ==>
            && (Truthy(guestId) && CastObjectId(guestId).None? ==>
                  reply == Forward(CastErrorOf("Guest", "_id", guestId)))
            && (Truthy(guestId) && CastObjectId(guestId).Some? && CastObjectId(guestId).value !in guests ==>
                  reply == Failure(404, BookingGuestNotFound))
            && ((Truthy(guestId) ==> CastObjectId(guestId).Some? && CastObjectId(guestId).value in guests) ==>
                  && (Truthy(roomId) && CastObjectId(roomId).None? ==>
                        reply == Forward(CastErrorOf("Room", "_id", roomId)))
                  && (Truthy(roomId) && CastObjectId(roomId).Some? && CastObjectId(roomId).value !in rooms ==>
                        reply == Failure(404, BookingRoomNotFound))))
  {
  }

  /**
   * Past the lookups, the merged dates decide first and validation second:
   * dates out of order are answered with 400 and the ordering message,
   * otherwise a failed validation is passed on and a valid booking is
   * saved.
   */
  lemma UpdateBookingSaves(guests: map<Id, Guest>, rooms: map<Id, RoomModel.Room>, bookings: map<Id, Booking>,
                           id: string, body: Body, dateOf: Json -> Option<int>)
    requires IsObjectIdText(id) && Canonical(id) in bookings
    requires Truthy(Get(body, "guestId")) ==>
      CastObjectId(Get(body, "guestId")).Some? && CastObjectId(Get(body, "guestId")).value in guests
    requires Truthy(Get(body, "roomId")) ==>
      CastObjectId(Get(body, "roomId")).Some? && CastObjectId(Get(body, "roomId")).value in rooms
    ensures var prior := bookings[Canonical(id)];
      var reply, d := UpdateBookingReply(guests, rooms, bookings, id, body, dateOf), UpdatedBookingDoc(prior, body, dateOf);
      var validated := ValidateBooking(d, prior.createdAt);
      && (DatesOutOfOrder(d) ==> reply == Failure(400, DateOrderMessage))
      && (!DatesOutOfOrder(d) && validated.Err? ==> reply == Forward(ValidationErrorOf("Booking", validated.error)))
      && (!DatesOutOfOrder(d) && validated.Ok? ==> reply == Success(200, None, validated.value))
  {
  }

  /** An update with an empty request saves the stored booking unchanged. */
  lemma EmptyUpdateKeepsBooking(guests: map<Id, Guest>, rooms: map<Id, RoomModel.Room>, bookings: map<Id, Booking>,
                                id: string, dateOf: Json -> Option<int>)
    requires IsObjectIdText(id) && Canonical(id) in bookings
    requires ValidBooking(bookings[Canonical(id)])
    ensures UpdateBookingReply(guests, rooms, bookings, id, map[], dateOf) == Success(200, None, bookings[Canonical(id)])
  {
    var prior := bookings[Canonical(id)];
    assert UpdatedBookingDoc(prior, map[], dateOf) == BookingDocOf(prior);
    BookingRevalidates(prior);
  }

  /** `updateBooking`: the updated booking replaces the stored one when the answer is a success. */
  method UpdateBooking(db: Database, id: string, body: Body, dateOf: Json -> Option<int>) returns (reply: Reply<Booking>)
    requires db.Valid()
    modifies db
    ensures db.Valid()
    ensures reply == UpdateBookingReply(old(db.guests), old(db.rooms), old(db.bookings), id, body, dateOf)
    ensures db.bookings == if reply.Success? then old(db.bookings)[Canonical(id) := reply.data] else old(db.bookings)
    ensures db.rooms == old(db.rooms) && db.guests == old(db.guests)
  {
    reply := UpdateBookingReply(db.guests, db.rooms, db.bookings, id, body, dateOf);
    if reply.Success? {
      db.PutBooking(Canonical(id), reply.data);
    }
  }

  // ---------------------------------------------------------------- delete

  /** `deleteBooking`: removes exactly the booking with that id and returns it; a malformed id is passed on. */
  method DeleteBooking(db: Database, id: string) returns (reply: Reply<Booking>)
    requires db.Valid()
    modifies db
    ensures db.Valid()
    ensures db.rooms == old(db.rooms) && db.guests == old(db.guests)
    ensures !IsObjectIdText(id) ==>
      reply == Forward(CastErrorOf("Booking", "_id", Str(id))) && db.bookings == old(db.bookings)
    ensures IsObjectIdText(id) && Canonical(id) !in old(db.bookings) ==>
      reply == Failure(404, BookingNotFound) && db.bookings == old(db.bookings)
    ensures IsObjectIdText(id) && Canonical(id) in old(db.bookings) ==>
      && reply == Success(200, Some(BookingDeleted), old(db.bookings)[Canonical(id)])
      && db.bookings == old(db.bookings) - {Canonical(id)}
  {
    var found := FindById(db.bookings, Str(id));
    match found
    case Malformed =>
      return Forward(CastErrorOf("Booking", "_id", Str(id)));
    case Missing =>
      return Failure(404, BookingNotFound);
    case Found(key, booking) =>
      db.bookings := db.bookings - {key};
      return Success(200, Some(BookingDeleted), booking);
  }
}
