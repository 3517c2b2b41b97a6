/**
 * The guest handlers (controllers/guestController.js). Listing, lookup and
 * the bookings of a guest are queries; creation, update and deletion change
 * the store. These handlers answer every error themselves: a duplicate
 * e-mail address and a failed validation with 400, a failed lookup with 500
 * (400 in an update).
 */
module GuestController {
  import opened Wrappers
  import opened Js
  import opened ObjectIds
  import opened Schema
  import opened GuestModel
  import opened BookingModel
  import opened Listing
  import opened Store
  import opened BookingQueries
  import opened GuestQueries

  const GuestFieldsMessage: string := "Please provide name, email, phone, and address"
  const GuestNotFound: string := "Guest not found"
  const GuestDeleted: string := "Guest deleted successfully"

  /** The message of the duplicate-key error on `email`. */
  function DuplicateEmailMessage(email: string): string {
    "Email " + email + " already exists"
  }

  /**
   * `getAllGuests`: page `page` of `limit` of every guest, newest first,
   * with the number of guests and of pages.
   */
  function GetAllGuests(guests: map<Id, Guest>, page: nat, limit: nat): (p: Page<Guest>)
    requires page >= 1 && limit >= 1
    ensures p.total == |guests|
    ensures p.page == page && p.limit == limit && p.pages == PageCount(p.total, limit)
    ensures p.data == Window(OrderedGuests(guests), Skip(page, limit), limit)
    ensures |p.data| <= limit
    ensures AllStored(guests, p.data)
    ensures NewestGuestsFirst(p.data)
  {
    var gs := OrderedGuests(guests);
    WindowOfGuests(guests, gs, Skip(page, limit), limit);
    Paginate(gs, page, limit)
  }

  /** `getGuestById`: the stored guest, 404 when there is none, 500 for an id that is not one. */
  function GetGuestById(guests: map<Id, Guest>, id: string): (r: Reply<Guest>)
    ensures r.Success? <==> IsObjectIdText(id) && Canonical(id) in guests
    ensures r.Success? ==> r.status == 200 && r.data == guests[Canonical(id)]
    ensures IsObjectIdText(id) && Canonical(id) !in guests ==> r == Failure(404, GuestNotFound)
    ensures !IsObjectIdText(id) ==> r.Failure? && r.status == 500
  {
    match FindById(guests, Str(id))
    case Malformed => Failure(500, CastErrorOf("Guest", "_id", Str(id)).message)
    case Missing => Failure(404, GuestNotFound)
    case Found(_, guest) => Success(200, None, guest)
  }

  /** The presence check of `createGuest`: name, email, phone and address are all truthy. */
  predicate GuestFieldsGiven(body: Body) {
    && Truthy(Get(body, "name")) && Truthy(Get(body, "email"))
    && Truthy(Get(body, "phone")) && Truthy(Get(body, "address"))
  }

  /** The document `Guest.create({ name, email, phone, address })` builds. */
  function CreateGuestDoc(body: Body): GuestDoc {
    var d1 := SetName(NewGuestDoc, Get(body, "name"));
    var d2 := SetEmail(d1, Get(body, "email"));
    var d3 := SetPhone(d2, Get(body, "phone"));
    SetAddress(d3, Get(body, "address"))
  }

  /** The request carries exactly the guest's four strings. */
  predicate HoldsRequest(body: Body, g: Guest) {
    && Get(body, "name") == Str(g.name) && Get(body, "email") == Str(g.email)
    && Get(body, "phone") == Str(g.phone) && Get(body, "address") == Str(g.address)
  }

  /**
   * The answer of `createGuest` to a request, given the stored guests: the
   * presence check first, then validation, then the unique e-mail address.
   */
  function CreateGuestReply(guests: map<Id, Guest>, body: Body, now: int): (reply: Reply<Guest>)
    ensures reply.Success? ==>
      && reply.status == 201
      && HoldsRequest(body, reply.data) && reply.data.createdAt == now
      && !EmailTaken(guests, reply.data.email, None)
    ensures reply.Failure? ==> reply.status == 400
    ensures !reply.Forward?
  {
    if !GuestFieldsGiven(body) then Failure(400, GuestFieldsMessage)
    else
      var validated := ValidateGuest(CreateGuestDoc(body), now);
      if validated.Err? then Failure(400, ValidationFailedMessage("Guest", validated.error))
      else if EmailTaken(guests, validated.value.email, None) then
        Failure(400, DuplicateEmailMessage(validated.value.email))
      else Success(201, None, validated.value)
  }

  /**
   * The answers of `createGuest`: a missing field, then a failed
   * validation, then an e-mail address already in use, each with its
   * message; a request of four strings whose e-mail is free is stored.
   */
  lemma CreateGuestAnswers(guests: map<Id, Guest>, body: Body, now: int)
    ensures var reply, validated := CreateGuestReply(guests, body, now), ValidateGuest(CreateGuestDoc(body), now);
      && (!GuestFieldsGiven(body) ==> reply == Failure(400, GuestFieldsMessage))
      && (GuestFieldsGiven(body) && validated.Err? ==>
            reply == Failure(400, ValidationFailedMessage("Guest", validated.error)))
      && (GuestFieldsGiven(body) && validated.Ok? && EmailTaken(guests, validated.value.email, None) ==>
            reply == Failure(400, DuplicateEmailMessage(validated.value.email)))
      && (reply.Success? <==>
            GuestFieldsGiven(body) && validated.Ok? && !EmailTaken(guests, validated.value.email, None))
  {
  }

  /** A request of four non-empty strings whose e-mail no guest has creates exactly that guest. */
  lemma CreateGuestAccepts(guests: map<Id, Guest>, body: Body, g: Guest)
    requires HoldsRequest(body, g)
    requires g.name != "" && g.email != "" && g.phone != "" && g.address != ""
    requires !EmailTaken(guests, g.email, None)
    ensures CreateGuestReply(guests, body, g.createdAt) == Success(201, None, g)
  {
  }

  /** `createGuest`: the guest is stored under a fresh identifier when the answer is a success. */
  method CreateGuest(db: Database, body: Body, newId: Id, now: int) returns (reply: Reply<Guest>)
    requires db.Valid() && newId !in db.guests
    modifies db
    ensures db.Valid()
    ensures reply == CreateGuestReply(old(db.guests), body, now)
    ensures db.guests == if reply.Success? then old(db.guests)[newId := reply.data] else old(db.guests)
    ensures db.rooms == old(db.rooms) && db.bookings == old(db.bookings)
  {
    reply := CreateGuestReply(db.guests, body, now);
    if reply.Success? {
      db.PutGuest(newId, reply.data);
    }
  }

  /** The document `updateGuest` saves: the stored guest with each field assigned when the request's value is truthy. */
  function UpdatedGuestDoc(prior: Guest, body: Body): GuestDoc {
    var name, email, phone, address := Get(body, "name"), Get(body, "email"), Get(body, "phone"), Get(body, "address");
    var d0 := GuestDocOf(prior);
    var d1 := if Truthy(name) then SetName(d0, name) else d0;
    var d2 := if Truthy(email) then SetEmail(d1, email) else d1;
    var d3 := if Truthy(phone) then SetPhone(d2, phone) else d2;
    if Truthy(address) then SetAddress(d3, address) else d3
  }

  /** What a successful `updateGuest` stores: each field from the request when truthy, the stored one otherwise. */
  predicate GuestUpdated(prior: Guest, body: Body, g: Guest) {
    && TextTaken(Get(body, "name"), prior.name, g.name)
    && TextTaken(Get(body, "email"), prior.email, g.email)
    && TextTaken(Get(body, "phone"), prior.phone, g.phone)
    && TextTaken(Get(body, "address"), prior.address, g.address)
    && g.createdAt == prior.createdAt
  }

  /**
   * Each assignment of an update touches only its own path, and no cast
   * error is recorded exactly when every assigned value is a string.
   */
  lemma UpdatedGuestDocPaths(prior: Guest, body: Body)
    ensures var d := UpdatedGuestDoc(prior, body);
      var name, email, phone, address := Get(body, "name"), Get(body, "email"), Get(body, "phone"), Get(body, "address");
      && d.name == Assigned(prior.name, Truthy(name), CastText(name))
      && d.email == Assigned(prior.email, Truthy(email), CastText(email))
      && d.phone == Assigned(prior.phone, Truthy(phone), CastText(phone))
      && d.address == Assigned(prior.address, Truthy(address), CastText(address))
      && (d.castErrors == [] <==>
            && (Truthy(name) ==> CastText(name).Some?)
            && (Truthy(email) ==> CastText(email).Some?)
            && (Truthy(phone) ==> CastText(phone).Some?)
            && (Truthy(address) ==> CastText(address).Some?))
  {
  }

  /** A saved update holds the request's values where they were assigned and the stored ones elsewhere. */
  lemma UpdatedGuestSaved(prior: Guest, body: Body)
    requires ValidateGuest(UpdatedGuestDoc(prior, body), prior.createdAt).Ok?
    ensures GuestUpdated(prior, body, ValidateGuest(UpdatedGuestDoc(prior, body), prior.createdAt).value)
  {
    var d := UpdatedGuestDoc(prior, body);
    UpdatedGuestDocPaths(prior, body);
    AssignedText(prior.name, Get(body, "name"), d.name);
    AssignedText(prior.email, Get(body, "email"), d.email);
    AssignedText(prior.phone, Get(body, "phone"), d.phone);
    AssignedText(prior.address, Get(body, "address"), d.address);
  }

  /** An update that assigns nothing saves the stored guest unchanged. */
  lemma EmptyUpdateKeepsGuest(prior: Guest)
    ensures ValidateGuest(UpdatedGuestDoc(prior, map[]), prior.createdAt) == Ok(prior)
  {
    GuestRevalidates(prior);
  }

  /**
   * The answer of `updateGuest`: the lookup (a malformed id is answered
   * with 400 and the cast message, a missing guest with 404), then the
   * validation of the updated document, then the unique e-mail address.
   */
  function UpdateGuestReply(guests: map<Id, Guest>, id: string, body: Body): (reply: Reply<Guest>)
    ensures reply.Success? ==>
      && reply.status == 200
      && IsObjectIdText(id) && Canonical(id) in guests
      && GuestUpdated(guests[Canonical(id)], body, reply.data)
      && !EmailTaken(guests, reply.data.email, Some(Canonical(id)))
    ensures reply.Failure? ==> reply.status in {400, 404}
    ensures !reply.Forward?
  {
    match FindById(guests, Str(id))
    case Malformed => Failure(400, CastErrorOf("Guest", "_id", Str(id)).message)
    case Missing => Failure(404, GuestNotFound)
    case Found(key, prior) =>
      var validated := ValidateGuest(UpdatedGuestDoc(prior, body), prior.createdAt);
      if validated.Err? then Failure(400, ValidationFailedMessage("Guest", validated.error))
      else if EmailTaken(guests, validated.value.email, Some(key)) then
        Failure(400, DuplicateEmailMessage(validated.value.email))
      else
        UpdatedGuestSaved(prior, body);
        Success(200, None, validated.value)
  }

  /**
   * The answers of `updateGuest`: 400 with the cast message for an id that
   * is not one, 404 for a missing guest, then the failed validation and the
   * e-mail address already in use; otherwise the validated guest.
   */
  lemma UpdateGuestAnswers(guests: map<Id, Guest>, id: string, body: Body)
    ensures var reply := UpdateGuestReply(guests, id, body);
      && (!IsObjectIdText(id) ==> reply == Failure(400, CastErrorOf("Guest", "_id", Str(id)).message))
      && (IsObjectIdText(id) && Canonical(id) !in guests ==> reply == Failure(404, GuestNotFound))
      && (IsObjectIdText(id) && Canonical(id) in guests ==>
            var prior := guests[Canonical(id)];
            var validated := ValidateGuest(UpdatedGuestDoc(prior, body), prior.createdAt);
            && (validated.Err? ==> reply == Failure(400, ValidationFailedMessage("Guest", validated.error)))
            && (validated.Ok? && EmailTaken(guests, validated.value.email, Some(Canonical(id))) ==>
                  reply == Failure(400, DuplicateEmailMessage(validated.value.email)))
            && (validated.Ok? && !EmailTaken(guests, validated.value.email, Some(Canonical(id))) ==>
                  reply == Success(200, None, validated.value)))
  {
  }

  /** `updateGuest`: the updated guest replaces the stored one when the answer is a success. */
  method UpdateGuest(db: Database, id: string, body: Body) returns (reply: Reply<Guest>)
    requires db.Valid()
    modifies db
    ensures db.Valid()
    ensures reply == UpdateGuestReply(old(db.guests), id, body)
    ensures db.guests == if reply.Success? then old(db.guests)[Canonical(id) := reply.data] else old(db.guests)
    ensures db.rooms == old(db.rooms) && db.bookings == old(db.bookings)
  {
    reply := UpdateGuestReply(db.guests, id, body);
    if reply.Success? {
      db.PutGuest(Canonical(id), reply.data);
    }
  }

  /**
   * `deleteGuest`: removes exactly the guest with that id and returns it;
   * the bookings that name the guest stay as they are.
   */
  method DeleteGuest(db: Database, id: string) returns (reply: Reply<Guest>)
    requires db.Valid()
    modifies db
    ensures db.Valid()
    ensures db.rooms == old(db.rooms) && db.bookings == old(db.bookings)
    ensures !IsObjectIdText(id) ==>
      reply == Failure(500, CastErrorOf("Guest", "_id", Str(id)).message) && db.guests == old(db.guests)
    ensures IsObjectIdText(id) && Canonical(id) !in old(db.guests) ==>
      reply == Failure(404, GuestNotFound) && db.guests == old(db.guests)
    ensures IsObjectIdText(id) && Canonical(id) in old(db.guests) ==>
      && reply == Success(200, Some(GuestDeleted), old(db.guests)[Canonical(id)])
      && db.guests == old(db.guests) - {Canonical(id)}
  {
    var found := FindById(db.guests, Str(id));
    match found
    case Malformed =>
      return Failure(500, CastErrorOf("Guest", "_id", Str(id)).message);
    case Missing =>
      return Failure(404, GuestNotFound);
    case Found(key, guest) =>
      db.guests := db.guests - {key};
      return Success(200, Some(GuestDeleted), guest);
  }

  /**
   * `getGuestBookings`: every booking of the guest, newest first; an id
   * that is not one fails the query's cast on `guestId` and is answered
   * with 500.
   */
  function GetGuestBookings(bookings: map<Id, Booking>, id: string): (r: Reply<seq<Booking>>)
    ensures r.Success? <==> IsObjectIdText(id)
    ensures !IsObjectIdText(id) ==> r == Failure(500, CastErrorOf("Booking", "guestId", Str(id)).message)
    ensures r.Success? ==>
      && r.status == 200
      && |r.data| == |Chosen(bookings, Some(Canonical(id)), "")|
      && AllWanted(bookings, Some(Canonical(id)), "", r.data)
      && NewestBookingsFirst(r.data)
  {
    match CastObjectId(Str(id))
    case None => Failure(500, CastErrorOf("Booking", "guestId", Str(id)).message)
    case Some(guest) => Success(200, None, NewestBookings(bookings, Some(guest), ""))
  }

  /** No booking of the guest is missing from `getGuestBookings`' answer. */
  lemma GuestBookingsComplete(bookings: map<Id, Booking>, id: string)
    requires IsObjectIdText(id)
    ensures forall b :: b in bookings && bookings[b].guestId == Canonical(id) ==>
      bookings[b] in GetGuestBookings(bookings, id).data
  {
    EveryChosenBookingListed(bookings, Some(Canonical(id)), "");
  }
}
