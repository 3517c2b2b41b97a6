/**
 * The document database as the controllers use it: one map from
 * identifier to record per collection, the invariant every stored record
 * keeps (including the unique indexes on room number and guest e-mail),
 * lookups by identifier, the errors the database raises, and the replies a
 * controller sends.
 */
module Store {
  import opened Wrappers
  import opened Js
  import opened ObjectIds
  import opened Schema
  import opened ErrorHandler
  import opened RoomModel
  import opened GuestModel
  import opened BookingModel

  /** Every stored room satisfies the room schema. */
  predicate RoomsValid(rooms: map<Id, Room>) {
    forall id :: id in rooms ==> ValidRoom(rooms[id])
  }

  /** No two rooms share a number (the unique index on `number`). */
  predicate RoomNumbersUnique(rooms: map<Id, Room>) {
    forall a, b :: a in rooms && b in rooms && rooms[a].number == rooms[b].number ==> a == b
  }

  /** No two guests share an e-mail address (the unique index on `email`). */
  predicate GuestEmailsUnique(guests: map<Id, Guest>) {
    forall a, b :: a in guests && b in guests && guests[a].email == guests[b].email ==> a == b
  }

  /** Whether a room other than `except` already has `number`. */
  predicate NumberTaken(rooms: map<Id, Room>, number: string, except: Option<Id>) {
    exists other :: other in rooms && Some(other) != except && rooms[other].number == number
  }

  /** Whether a guest other than `except` already has `email`. */
  predicate EmailTaken(guests: map<Id, Guest>, email: string, except: Option<Id>) {
    exists other :: other in guests && Some(other) != except && guests[other].email == email
  }

  /** Storing a valid room whose number no other room has keeps every stored room valid and the numbers unique. */
  lemma RoomStored(rooms: map<Id, Room>, key: Id, r: Room)
    requires RoomsValid(rooms) && RoomNumbersUnique(rooms)
    requires ValidRoom(r) && !NumberTaken(rooms, r.number, Some(key))
    ensures RoomsValid(rooms[key := r]) && RoomNumbersUnique(rooms[key := r])
  {
    var m := rooms[key := r];
    forall a, b | a in m && b in m && m[a].number == m[b].number
      ensures a == b
    {
      if a != key && b != key {
        assert m[a] == rooms[a] && m[b] == rooms[b];
      }
    }
  }

  /** Storing a guest whose e-mail no other guest has keeps the e-mail addresses unique. */
  lemma GuestStored(guests: map<Id, Guest>, key: Id, g: Guest)
    requires GuestEmailsUnique(guests)
    requires !EmailTaken(guests, g.email, Some(key))
    ensures GuestEmailsUnique(guests[key := g])
  {
    var m := guests[key := g];
    forall a, b | a in m && b in m && m[a].email == m[b].email
      ensures a == b
    {
      if a != key && b != key {
        assert m[a] == guests[a] && m[b] == guests[b];
      }
    }
  }

  class Database {
    var rooms: map<Id, Room>
    var guests: map<Id, Guest>
    var bookings: map<Id, Booking>

    /** Every stored record satisfies its schema, and the unique indexes hold. */
    predicate Valid()
      reads this
    {
      && RoomsValid(rooms)
      && RoomNumbersUnique(rooms)
      && GuestEmailsUnique(guests)
      && (forall id :: id in bookings ==> ValidBooking(bookings[id]))
    }

    constructor ()
      ensures Valid()
      ensures rooms == map[] && guests == map[] && bookings == map[]
    {
      rooms := map[];
      guests := map[];
      bookings := map[];
    }

    /** `room.save()`: stores a valid room whose number no other room has under `key`. */
    method PutRoom(key: Id, r: Room)
      requires Valid()
      requires ValidRoom(r) && !NumberTaken(rooms, r.number, Some(key))
      modifies this
      ensures Valid()
      ensures rooms == old(rooms)[key := r]
      ensures guests == old(guests) && bookings == old(bookings)
    {
      RoomStored(rooms, key, r);
      rooms := rooms[key := r];
    }

    /** `guest.save()`: stores a guest whose e-mail no other guest has under `key`. */
    method PutGuest(key: Id, g: Guest)
      requires Valid()
      requires !EmailTaken(guests, g.email, Some(key))
      modifies this
      ensures Valid()
      ensures guests == old(guests)[key := g]
      ensures rooms == old(rooms) && bookings == old(bookings)
    {
      GuestStored(guests, key, g);
      guests := guests[key := g];
    }

    /** `booking.save()`: stores a valid booking under `key`. */
    method PutBooking(key: Id, b: Booking)
      requires Valid()
      requires ValidBooking(b)
      modifies this
      ensures Valid()
      ensures bookings == old(bookings)[key := b]
      ensures rooms == old(rooms) && guests == old(guests)
    {
      bookings := bookings[key := b];
    }
  }

  /** The outcome of looking a record up by an identifier value. */
  datatype Lookup<+T> = Malformed | Missing | Found(id: Id, value: T)

  /**
   * `Model.findById(v)`: a value that is not an identifier is a cast
   * failure, otherwise the record with that identifier, if any.
   */
  function FindById<T>(m: map<Id, T>, v: Json): (r: Lookup<T>)
    ensures r.Malformed? <==> CastObjectId(v).None?
    ensures r.Missing? <==> CastObjectId(v).Some? && CastObjectId(v).value !in m
    ensures r.Found? ==> r.id == CastObjectId(v).value && r.id in m && r.value == m[r.id]
  {
    match CastObjectId(v)
    case None => Malformed
    case Some(id) => if id in m then Found(id, m[id]) else Missing
  }

  /** How a cast error shows the value it could not cast; only strings are shown. */
  function Shown(v: Json): string {
    if v.Str? then "\"" + v.s + "\" (type string)" else ""
  }

  /** The CastError a query raises for a value that is not an identifier. */
  function CastErrorOf(model: string, path: string, v: Json): (e: Error)
    ensures e.name == CastErrorName && e.code.None?
  {
    var message := "Cast to ObjectId failed for value " + Shown(v) + " at path \"" + path
      + "\" for model \"" + model + "\"";
    Error(CastErrorName, None, None, None, None, message, CastErrorName + ": " + message)
  }

  /** The ValidationError `save()` raises for the errors of a document. */
  function ValidationErrorOf(model: string, errs: seq<FieldError>): (e: Error)
    ensures e.name == ValidationErrorName && e.code.None?
    ensures e.errors == Some(Messages(errs))
  {
    var message := ValidationFailedMessage(model, errs);
    Error(ValidationErrorName, None, Some(Messages(errs)), None, None, message, ValidationErrorName + ": " + message)
  }

  /**
   * What a controller does: answer with data (and, for deletions, a
   * message), answer with a failure message, or pass an error on to the
   * error handler (`next(error)`).
   */
  datatype Reply<+T> =
    | Success(status: int, note: Option<string>, data: T)
    | Failure(status: int, message: string)
    | Forward(error: Error)

  /** A ValidationError is answered by the error handler with 400 and the messages of its errors. */
  lemma ValidationErrorAnsweredWithMessages(model: string, errs: seq<FieldError>, development: bool)
    ensures Handle(ValidationErrorOf(model, errs), development)
      == Respond(Response(400, Strings.Join(Messages(errs), ", "), None))
  {
  }

  /** A CastError is answered by the error handler with 400 "Invalid ID format". */
  lemma CastErrorAnsweredAsInvalidId(model: string, path: string, v: Json, development: bool)
    ensures Handle(CastErrorOf(model, path, v), development) == Respond(Response(400, InvalidIdMessage, None))
  {
  }
}
