/**
 * The room handlers (controllers/roomController.js). Listing and lookup are
 * queries over the stored rooms; creation, update and deletion change the
 * store. These handlers answer every error themselves: a duplicate number
 * and a failed validation with 400, a failed lookup with 500 (400 in an
 * update).
 */
module RoomController {
  import opened Wrappers
  import opened Strings
  import opened Js
  import opened ObjectIds
  import opened Schema
  import opened RoomModel
  import opened Listing
  import opened Store
  import Validation

  const RoomFieldsMessage: string := "Please provide number, type, price, and capacity"
  const RoomNotFound: string := "Room not found"
  const RoomDeleted: string := "Room deleted successfully"

  function DuplicateNumberMessage(number: string): string {
    "Room number " + number + " already exists"
  }

  /** The status filter of a listing; `""` (a falsy query value) means no filter. */
  predicate Matches(r: Room, status: string) {
    status == "" || r.status == status
  }

  /** The identifiers of the rooms a listing selects. */
  function Selected(rooms: map<Id, Room>, status: string): (ids: set<Id>)
    ensures forall id :: id in ids <==> id in rooms && Matches(rooms[id], status)
  {
    set id | id in rooms && Matches(rooms[id], status)
  }

  /** The rooms a listing selects, with their sort key `{ number: 1 }`. */
  function RoomKeys(rooms: map<Id, Room>, status: string): (keys: map<Id, seq<int>>)
    ensures keys.Keys == Selected(rooms, status)
    ensures forall id :: id in keys ==> keys[id] == Codes(rooms[id].number)
  {
    map id | id in rooms && Matches(rooms[id], status) :: Codes(rooms[id].number)
  }

  /** Every room of `rs` matches the filter and is a stored room. */
  predicate AllSelected(rooms: map<Id, Room>, status: string, rs: seq<Room>) {
    forall i :: 0 <= i < |rs| ==> Matches(rs[i], status) && rs[i] in rooms.Values
  }

  /** Room numbers never go down along `rs`. */
  predicate ByNumber(rs: seq<Room>) {
    forall i, j :: 0 <= i < j < |rs| ==> !LexLt(Codes(rs[j].number), Codes(rs[i].number))
  }

  /** The rooms of a listing match its filter, are stored rooms, and come by number. */
  lemma ListedRooms(rooms: map<Id, Room>, status: string)
    ensures AllSelected(rooms, status, RecordsAt(rooms, Ordered(RoomKeys(rooms, status))))
    ensures ByNumber(RecordsAt(rooms, Ordered(RoomKeys(rooms, status))))
  {
    var keys := RoomKeys(rooms, status);
    var ids := Ordered(keys);
    var rs := RecordsAt(rooms, ids);
    OrderedNeverDescends(keys);
    RecordsStored(rooms, ids, rs);
    forall i | 0 <= i < |rs|
      ensures Matches(rs[i], status)
    {
      assert ids[i] in keys;
    }
    forall i, j | 0 <= i < j < |rs|
      ensures !LexLt(Codes(rs[j].number), Codes(rs[i].number))
    {
      assert keys[ids[i]] == Codes(rs[i].number) && keys[ids[j]] == Codes(rs[j].number);
    }
  }

  /**
   * The rooms a listing selects, in listing order: by number, ascending.
   * Every selected room is listed, and there are exactly as many entries
   * as selected rooms.
   */
  function OrderedRooms(rooms: map<Id, Room>, status: string): (rs: seq<Room>)
    ensures |rs| == |Selected(rooms, status)|
    ensures AllSelected(rooms, status, rs)
    ensures forall id :: id in Selected(rooms, status) ==> rooms[id] in rs
    ensures ByNumber(rs)
  {
    ListedRooms(rooms, status);
    var ids := Ordered(RoomKeys(rooms, status));
    var rs := RecordsAt(rooms, ids);
    RecordsListed(rooms, ids, rs, Selected(rooms, status));
    rs
  }

  /**
   * `getAllRooms`: the rooms matching the filter, ordered by number, page
   * `page` of `limit`, with the number of matching rooms and of pages.
   */
  function GetAllRooms(rooms: map<Id, Room>, status: string, page: nat, limit: nat): (p: Page<Room>)
    requires page >= 1 && limit >= 1
    ensures p.total == |Selected(rooms, status)|
    ensures p.page == page && p.limit == limit && p.pages == PageCount(p.total, limit)
    ensures p.data == Window(OrderedRooms(rooms, status), Skip(page, limit), limit)
    ensures |p.data| <= limit
    ensures AllSelected(rooms, status, p.data)
    ensures ByNumber(p.data)
  {
    var rs := OrderedRooms(rooms, status);
    WindowOfListing(rooms, status, rs, Skip(page, limit), limit);
    Paginate(rs, page, limit)
  }

  /** A window of a listing is still a listing: selected rooms, by number. */
  lemma WindowOfListing(rooms: map<Id, Room>, status: string, rs: seq<Room>, skip: nat, limit: nat)
    requires AllSelected(rooms, status, rs) && ByNumber(rs)
    ensures AllSelected(rooms, status, Window(rs, skip, limit))
    ensures ByNumber(Window(rs, skip, limit))
  {
    var w := Window(rs, skip, limit);
    forall i | 0 <= i < |w|
      ensures Matches(w[i], status) && w[i] in rooms.Values
    {
      assert w[i] == rs[skip + i];
    }
    forall i, j | 0 <= i < j < |w|
      ensures !LexLt(Codes(w[j].number), Codes(w[i].number))
    {
      assert w[i] == rs[skip + i] && w[j] == rs[skip + j];
    }
  }

  /** `getRoomById`: the stored room, 404 when there is none, 500 for an id that is not one. */
  function GetRoomById(rooms: map<Id, Room>, id: string): (r: Reply<Room>)
    ensures r.Success? <==> IsObjectIdText(id) && Canonical(id) in rooms
    ensures r.Success? ==> r.status == 200 && r.data == rooms[Canonical(id)]
    ensures IsObjectIdText(id) && Canonical(id) !in rooms ==> r == Failure(404, RoomNotFound)
    ensures !IsObjectIdText(id) ==> r.Failure? && r.status == 500
  {
    match FindById(rooms, Str(id))
    case Malformed => Failure(500, CastErrorOf("Room", "_id", Str(id)).message)
    case Missing => Failure(404, RoomNotFound)
    case Found(_, room) => Success(200, None, room)
  }

  /** The presence check of `createRoom`: number, type, price and capacity are all truthy. */
  predicate RoomFieldsGiven(body: Body) {
    && Truthy(Get(body, "number")) && Truthy(Get(body, "type"))
    && Truthy(Get(body, "price")) && Truthy(Get(body, "capacity"))
  }

  /** The document `Room.create` builds, with `status || 'available'` and `amenities || []`. */
  function CreateRoomDoc(body: Body): RoomDoc {
    var status, amenities := Get(body, "status"), Get(body, "amenities");
    var d1 := SetNumber(NewRoomDoc, Get(body, "number"));
    var d2 := SetKind(d1, Get(body, "type"));
    var d3 := SetPrice(d2, Get(body, "price"));
    var d4 := SetCapacity(d3, Get(body, "capacity"));
    var d5 := SetStatus(d4, if Truthy(status) then status else Str(DefaultRoomStatus));
    SetAmenities(d5, if Truthy(amenities) then amenities else Arr([]))
  }

  /**
   * A room created from a request holds the request's values as the
   * schema casts them (the number trimmed, a numeric string read as a
   * number, one amenity string wrapped in a list) and the defaults: status
   * "available" and no amenities.
   */
  lemma CreatedRoom(body: Body, now: int)
    requires ValidateRoom(CreateRoomDoc(body), now).Ok?
    ensures var r := ValidateRoom(CreateRoomDoc(body), now).value;
      var number, kind, price, capacity, status, amenities :=
        Get(body, "number"), Get(body, "type"), Get(body, "price"), Get(body, "capacity"),
        Get(body, "status"), Get(body, "amenities");
      && number.Str? && r.number == Trim(number.s)
      && kind.Str? && r.kind == kind.s
      && CastNumber(price) == Some(Set(r.price))
      && CastNumber(capacity) == Some(Set(r.capacity))
      && (Truthy(status) ==> status.Str? && r.status == status.s)
      && (!Truthy(status) ==> r.status == DefaultRoomStatus)
      && (Truthy(amenities) ==> CastTextList(amenities) == Some(Set(r.amenities)))
      && (!Truthy(amenities) ==> r.amenities == [])
      && r.createdAt == now
  {
    var number, kind, price, capacity, status, amenities :=
      Get(body, "number"), Get(body, "type"), Get(body, "price"), Get(body, "capacity"),
      Get(body, "status"), Get(body, "amenities");
    var d1 := SetNumber(NewRoomDoc, number);
    var d2 := SetKind(d1, kind);
    var d3 := SetPrice(d2, price);
    var d4 := SetCapacity(d3, capacity);
    var given, listed := if Truthy(status) then status else Str(DefaultRoomStatus), if Truthy(amenities) then amenities else Arr([]);
    var d5 := SetStatus(d4, given);
    var d6 := SetAmenities(d5, listed);
    assert d6 == CreateRoomDoc(body);
    assert d6.castErrors == [];
    assert |d3.castErrors| <= |d4.castErrors| <= |d5.castErrors| <= |d6.castErrors|;
    assert CastNumber(price).Some? && CastNumber(capacity).Some?;
    assert CastText(given).Some? && CastTextList(listed).Some?;
    assert d6.status == CastText(given).value && d6.amenities == CastTextList(listed).value;
    var r := ValidateRoom(d6, now).value;
    if Truthy(amenities) {
      assert d6.amenities.Set? && r.amenities == d6.amenities.v;
    }
  }

  /**
   * The controller's presence check rejects a price of 0, which
   * `validateRoomCreate` lets through (and the schema's minimum of 0 allows).
   */
  lemma ZeroPriceRejectedOnlyByController(body: Body)
    requires Get(body, "price") == Num(0.0)
    requires Truthy(Get(body, "number")) && Get(body, "capacity") == Num(1.0) && Get(body, "type") == Str("single")
    ensures Validation.ValidateRoomCreate(body) == Validation.Next
    ensures !RoomFieldsGiven(body)
  {
  }

  /**
   * The answer of `createRoom` to a request, given the stored rooms: the
   * presence check first, then validation, then the unique number.
   */
  function CreateRoomReply(rooms: map<Id, Room>, body: Body, now: int): (reply: Reply<Room>)
    ensures reply.Success? ==>
      && reply.status == 201
      && ValidRoom(reply.data)
      && !NumberTaken(rooms, reply.data.number, None)
    ensures reply.Failure? ==> reply.status == 400
    ensures !reply.Forward?
  {
    if !RoomFieldsGiven(body) then Failure(400, RoomFieldsMessage)
    else
      var validated := ValidateRoom(CreateRoomDoc(body), now);
      if validated.Err? then Failure(400, ValidationFailedMessage("Room", validated.error))
      else if NumberTaken(rooms, validated.value.number, None) then
        Failure(400, DuplicateNumberMessage(validated.value.number))
      else Success(201, None, validated.value)
  }

  /**
   * The answers of `createRoom`: a missing field, then a failed validation,
   * then a number already in use, each with its message; otherwise the
   * validated room.
   */
  lemma CreateRoomAnswers(rooms: map<Id, Room>, body: Body, now: int)
    ensures var reply, validated := CreateRoomReply(rooms, body, now), ValidateRoom(CreateRoomDoc(body), now);
      && (!RoomFieldsGiven(body) ==> reply == Failure(400, RoomFieldsMessage))
      && (RoomFieldsGiven(body) && validated.Err? ==>
            reply == Failure(400, ValidationFailedMessage("Room", validated.error)))
      && (RoomFieldsGiven(body) && validated.Ok? && NumberTaken(rooms, validated.value.number, None) ==>
            reply == Failure(400, DuplicateNumberMessage(validated.value.number)))
      && (reply.Success? <==>
            RoomFieldsGiven(body) && validated.Ok? && !NumberTaken(rooms, validated.value.number, None))
      && (reply.Success? ==> reply.data == validated.value)
  {
  }

  /** `createRoom`: the room is stored under a fresh identifier when the answer is a success. */
  method CreateRoom(db: Database, body: Body, newId: Id, now: int) returns (reply: Reply<Room>)
    requires db.Valid() && newId !in db.rooms
    modifies db
    ensures db.Valid()
    ensures reply == CreateRoomReply(old(db.rooms), body, now)
    ensures db.rooms == if reply.Success? then old(db.rooms)[newId := reply.data] else old(db.rooms)
    ensures db.guests == old(db.guests) && db.bookings == old(db.bookings)
  {
    reply := CreateRoomReply(db.rooms, body, now);
    if reply.Success? {
      db.PutRoom(newId, reply.data);
    }
  }

  /**
   * The document `updateRoom` saves: the stored room with number, type,
   * capacity, status and amenities assigned when the request's value is
   * truthy, and price when it is not undefined.
   */
  function UpdatedRoomDoc(prior: Room, body: Body): RoomDoc {
    var number, kind, price, capacity, status, amenities :=
      Get(body, "number"), Get(body, "type"), Get(body, "price"), Get(body, "capacity"),
      Get(body, "status"), Get(body, "amenities");
    var d0 := RoomDocOf(prior);
    var d1 := if Truthy(number) then SetNumber(d0, number) else d0;
    var d2 := if Truthy(kind) then SetKind(d1, kind) else d1;
    var d3 := if !price.Undefined? then SetPrice(d2, price) else d2;
    var d4 := if Truthy(capacity) then SetCapacity(d3, capacity) else d3;
    var d5 := if Truthy(status) then SetStatus(d4, status) else d4;
    if Truthy(amenities) then SetAmenities(d5, amenities) else d5
  }

  /**
   * What a successful `updateRoom` stores: number, type, capacity, status
   * and amenities are taken from the request when truthy, price when not
   * undefined, everything else is kept.
   */
  predicate RoomUpdated(prior: Room, body: Body, r: Room) {
    var price, capacity := Get(body, "price"), Get(body, "capacity");
    && TrimmedTaken(Get(body, "number"), prior.number, r.number)
    && TextTaken(Get(body, "type"), prior.kind, r.kind)
    && ValueTaken(!price.Undefined?, price, prior.price, r.price)
    && ValueTaken(Truthy(capacity), capacity, prior.capacity, r.capacity)
    && TextTaken(Get(body, "status"), prior.status, r.status)
    && ListTaken(Get(body, "amenities"), prior.amenities, r.amenities)
    && r.createdAt == prior.createdAt
  }

  /** The number path, which trims: the request's string trimmed when it is truthy, the stored number otherwise. */
  predicate TrimmedTaken(v: Json, stored: string, now: string) {
    if Truthy(v) then v.Str? && now == Trim(v.s) else now == stored
  }

  /** A number path: the request's value as the Number cast reads it when `given`, the stored number otherwise. */
  predicate ValueTaken(given: bool, v: Json, stored: real, now: real) {
    if given then CastNumber(v) == Some(Set(now)) else now == stored
  }

  /** The amenities path: the request's list when it is truthy, the stored list otherwise. */
  predicate ListTaken(v: Json, stored: seq<string>, now: seq<string>) {
    if Truthy(v) then CastTextList(v) == Some(Set(now)) else now == stored
  }

  /** Each assignment of an update touches only its own path. */
  lemma UpdatedRoomDocPaths(prior: Room, body: Body)
    ensures var d := UpdatedRoomDoc(prior, body);
      var number, kind, price, capacity, status, amenities :=
        Get(body, "number"), Get(body, "type"), Get(body, "price"), Get(body, "capacity"),
        Get(body, "status"), Get(body, "amenities");
      && d.number == Assigned(prior.number, Truthy(number), CastText(number))
      && d.kind == Assigned(prior.kind, Truthy(kind), CastText(kind))
      && d.price == Assigned(prior.price, !price.Undefined?, CastNumber(price))
      && d.capacity == Assigned(prior.capacity, Truthy(capacity), CastNumber(capacity))
      && d.status == Assigned(prior.status, Truthy(status), CastText(status))
      && d.amenities == Assigned(prior.amenities, Truthy(amenities), CastTextList(amenities))
  {
  }

  /** The cast errors of the assignments of an update, in assignment order. */
  function UpdateCastErrors(body: Body): seq<FieldError> {
    var number, kind, price, capacity, status, amenities :=
      Get(body, "number"), Get(body, "type"), Get(body, "price"), Get(body, "capacity"),
      Get(body, "status"), Get(body, "amenities");
    CastFailure(Truthy(number), CastText(number), "string", "number")
    + CastFailure(Truthy(kind), CastText(kind), "string", "type")
    + CastFailure(!price.Undefined?, CastNumber(price), "Number", "price")
    + CastFailure(Truthy(capacity), CastNumber(capacity), "Number", "capacity")
    + CastFailure(Truthy(status), CastText(status), "string", "status")
    + CastFailure(Truthy(amenities), CastTextList(amenities), "[string]", "amenities")
  }

  /** The assignments of an update record no cast error exactly when every assigned value casts. */
  lemma UpdateCastErrorsEmpty(body: Body)
    ensures var number, kind, price, capacity, status, amenities :=
        Get(body, "number"), Get(body, "type"), Get(body, "price"), Get(body, "capacity"),
        Get(body, "status"), Get(body, "amenities");
      UpdateCastErrors(body) == [] <==>
        && (Truthy(number) ==> CastText(number).Some?)
        && (Truthy(kind) ==> CastText(kind).Some?)
        && (!price.Undefined? ==> CastNumber(price).Some?)
        && (Truthy(capacity) ==> CastNumber(capacity).Some?)
        && (Truthy(status) ==> CastText(status).Some?)
        && (Truthy(amenities) ==> CastTextList(amenities).Some?)
  {
    var number, kind, price, capacity, status, amenities :=
      Get(body, "number"), Get(body, "type"), Get(body, "price"), Get(body, "capacity"),
      Get(body, "status"), Get(body, "amenities");
    var e1 := CastFailure(Truthy(number), CastText(number), "string", "number");
    var e2 := CastFailure(Truthy(kind), CastText(kind), "string", "type");
    var e3 := CastFailure(!price.Undefined?, CastNumber(price), "Number", "price");
    var e4 := CastFailure(Truthy(capacity), CastNumber(capacity), "Number", "capacity");
    var e5 := CastFailure(Truthy(status), CastText(status), "string", "status");
    var e6 := CastFailure(Truthy(amenities), CastTextList(amenities), "[string]", "amenities");
    assert |UpdateCastErrors(body)| == |e1| + |e2| + |e3| + |e4| + |e5| + |e6|;
  }

  /** An update records exactly the cast errors of the values it assigns, in assignment order. */
  lemma UpdatedRoomCastErrors(prior: Room, body: Body)
    ensures UpdatedRoomDoc(prior, body).castErrors == UpdateCastErrors(body)
  {
    var number, kind, price, capacity, status, amenities :=
      Get(body, "number"), Get(body, "type"), Get(body, "price"), Get(body, "capacity"),
      Get(body, "status"), Get(body, "amenities");
    var d := RoomDocOf(prior);
    ghost var recorded: seq<FieldError> := [];
    NoteCastAppends(d.castErrors, Truthy(number), CastText(number), "string", "number");
    if Truthy(number) {
      d := SetNumber(d, number);
    }
    recorded := CastFailure(Truthy(number), CastText(number), "string", "number");
    assert [] + recorded == recorded;
    assert d.castErrors == recorded;
    NoteCastAppends(d.castErrors, Truthy(kind), CastText(kind), "string", "type");
    if Truthy(kind) {
      d := SetKind(d, kind);
    }
    recorded := recorded + CastFailure(Truthy(kind), CastText(kind), "string", "type");
    assert d.castErrors == recorded;
    NoteCastAppends(d.castErrors, !price.Undefined?, CastNumber(price), "Number", "price");
    if !price.Undefined? {
      d := SetPrice(d, price);
    }
    recorded := recorded + CastFailure(!price.Undefined?, CastNumber(price), "Number", "price");
    assert d.castErrors == recorded;
    NoteCastAppends(d.castErrors, Truthy(capacity), CastNumber(capacity), "Number", "capacity");
    if Truthy(capacity) {
      d := SetCapacity(d, capacity);
    }
    recorded := recorded + CastFailure(Truthy(capacity), CastNumber(capacity), "Number", "capacity");
    assert d.castErrors == recorded;
    NoteCastAppends(d.castErrors, Truthy(status), CastText(status), "string", "status");
    if Truthy(status) {
      d := SetStatus(d, status);
    }
    recorded := recorded + CastFailure(Truthy(status), CastText(status), "string", "status");
    assert d.castErrors == recorded;
    NoteCastAppends(d.castErrors, Truthy(amenities), CastTextList(amenities), "[string]", "amenities");
    if Truthy(amenities) {
      d := SetAmenities(d, amenities);
    }
    recorded := recorded + CastFailure(Truthy(amenities), CastTextList(amenities), "[string]", "amenities");
    assert d.castErrors == recorded;
    assert d == UpdatedRoomDoc(prior, body);
    assert recorded == UpdateCastErrors(body);
  }

  /** A saved update holds the request's values where they were assigned and the stored ones elsewhere. */
  lemma UpdatedRoomSaved(prior: Room, body: Body)
    requires ValidRoom(prior)
    requires ValidateRoom(UpdatedRoomDoc(prior, body), prior.createdAt).Ok?
    ensures RoomUpdated(prior, body, ValidateRoom(UpdatedRoomDoc(prior, body), prior.createdAt).value)
  {
    UpdatedRoomDocPaths(prior, body);
    UpdatedRoomCastErrors(prior, body);
    SavedDocHoldsUpdate(prior, body, UpdatedRoomDoc(prior, body));
  }

  /** `UpdatedRoomSaved`, for any document whose paths and cast errors are those of the update. */
  lemma SavedDocHoldsUpdate(prior: Room, body: Body, d: RoomDoc)
    requires ValidRoom(prior)
    requires
      var number, kind, price, capacity, status, amenities :=
        Get(body, "number"), Get(body, "type"), Get(body, "price"), Get(body, "capacity"),
        Get(body, "status"), Get(body, "amenities");
      && d.number == Assigned(prior.number, Truthy(number), CastText(number))
      && d.kind == Assigned(prior.kind, Truthy(kind), CastText(kind))
      && d.price == Assigned(prior.price, !price.Undefined?, CastNumber(price))
      && d.capacity == Assigned(prior.capacity, Truthy(capacity), CastNumber(capacity))
      && d.status == Assigned(prior.status, Truthy(status), CastText(status))
      && d.amenities == Assigned(prior.amenities, Truthy(amenities), CastTextList(amenities))
    requires d.castErrors == UpdateCastErrors(body)
    requires ValidateRoom(d, prior.createdAt).Ok?
    ensures RoomUpdated(prior, body, ValidateRoom(d, prior.createdAt).value)
  {
    var number, kind, price, capacity, status, amenities :=
      Get(body, "number"), Get(body, "type"), Get(body, "price"), Get(body, "capacity"),
      Get(body, "status"), Get(body, "amenities");
    UpdateCastErrorsEmpty(body);
    AssignedNumberText(prior.number, number, d.number);
    AssignedText(prior.kind, kind, d.kind);
    AssignedValue(prior.price, !price.Undefined?, price, d.price);
    AssignedValue(prior.capacity, Truthy(capacity), capacity, d.capacity);
    AssignedText(prior.status, status, d.status);
    AssignedList(prior.amenities, amenities, d.amenities);
  }

  /** The number path after a truthy-guarded assignment whose cast succeeded, trimmed on save. */
  lemma AssignedNumberText(stored: string, v: Json, s: Slot<string>)
    requires IsTrimmed(stored)
    requires s == Assigned(stored, Truthy(v), CastText(v))
    requires Truthy(v) ==> CastText(v).Some?
    ensures s.Set? && TrimmedTaken(v, stored, Trim(s.v))
  {
    TrimmedIsFixedPoint(stored);
  }

  /** A number path that holds a value after an assignment made when `given` holds. */
  lemma AssignedValue(stored: real, given: bool, v: Json, s: Slot<real>)
    requires s == Assigned(stored, given, CastNumber(v))
    requires given ==> CastNumber(v).Some? && !v.Undefined?
    requires s.Set?
    ensures ValueTaken(given, v, stored, s.v)
  {
  }

  /** The amenities path after a truthy-guarded assignment whose cast succeeded. */
  lemma AssignedList(stored: seq<string>, v: Json, s: Slot<seq<string>>)
    requires s == Assigned(stored, Truthy(v), CastTextList(v))
    requires Truthy(v) ==> CastTextList(v).Some?
    ensures s.Set? && ListTaken(v, stored, s.v)
  {
  }

  /** An update that assigns nothing saves the stored room unchanged. */
  lemma EmptyUpdateKeepsRoom(prior: Room)
    requires ValidRoom(prior)
    ensures ValidateRoom(UpdatedRoomDoc(prior, map[]), prior.createdAt) == Ok(prior)
  {
    RoomRevalidates(prior);
  }

  /**
   * The answer of `updateRoom`: the lookup (a malformed id is answered
   * with 400 and the cast message, a missing room with 404), then the
   * validation of the updated document, then the unique number.
   */
  function UpdateRoomReply(rooms: map<Id, Room>, id: string, body: Body): (reply: Reply<Room>)
    requires RoomsValid(rooms)
    ensures reply.Success? ==>
      && reply.status == 200
      && IsObjectIdText(id) && Canonical(id) in rooms
      && RoomUpdated(rooms[Canonical(id)], body, reply.data)
      && ValidRoom(reply.data)
      && !NumberTaken(rooms, reply.data.number, Some(Canonical(id)))
    ensures reply.Failure? ==> reply.status in {400, 404}
    ensures !reply.Forward?
  {
    match FindById(rooms, Str(id))
    case Malformed => Failure(400, CastErrorOf("Room", "_id", Str(id)).message)
    case Missing => Failure(404, RoomNotFound)
    case Found(key, prior) =>
      var validated := ValidateRoom(UpdatedRoomDoc(prior, body), prior.createdAt);
      if validated.Err? then Failure(400, ValidationFailedMessage("Room", validated.error))
      else if NumberTaken(rooms, validated.value.number, Some(key)) then
        Failure(400, DuplicateNumberMessage(validated.value.number))
      else
        UpdatedRoomSaved(prior, body);
        Success(200, None, validated.value)
  }

  /**
   * The answers of `updateRoom`: 400 with the cast message for an id that
   * is not one, 404 for a missing room, then the failed validation and the
   * number already in use; otherwise the validated room.
   */
  lemma UpdateRoomAnswers(rooms: map<Id, Room>, id: string, body: Body)
    requires RoomsValid(rooms)
    ensures var reply := UpdateRoomReply(rooms, id, body);
      && (!IsObjectIdText(id) ==> reply == Failure(400, CastErrorOf("Room", "_id", Str(id)).message))
      && (IsObjectIdText(id) && Canonical(id) !in rooms ==> reply == Failure(404, RoomNotFound))
      && (IsObjectIdText(id) && Canonical(id) in rooms ==>
            var prior := rooms[Canonical(id)];
            var validated := ValidateRoom(UpdatedRoomDoc(prior, body), prior.createdAt);
            && (validated.Err? ==> reply == Failure(400, ValidationFailedMessage("Room", validated.error)))
            && (validated.Ok? && NumberTaken(rooms, validated.value.number, Some(Canonical(id))) ==>
                  reply == Failure(400, DuplicateNumberMessage(validated.value.number)))
            && (validated.Ok? && !NumberTaken(rooms, validated.value.number, Some(Canonical(id))) ==>
                  reply == Success(200, None, validated.value)))
  {
  }

  /** `updateRoom`: the updated room replaces the stored one when the answer is a success. */
  method UpdateRoom(db: Database, id: string, body: Body) returns (reply: Reply<Room>)
    requires db.Valid()
    modifies db
    ensures db.Valid()
    ensures reply == UpdateRoomReply(old(db.rooms), id, body)
    ensures db.rooms == if reply.Success? then old(db.rooms)[Canonical(id) := reply.data] else old(db.rooms)
    ensures db.guests == old(db.guests) && db.bookings == old(db.bookings)
  {
    reply := UpdateRoomReply(db.rooms, id, body);
    if reply.Success? {
      db.PutRoom(Canonical(id), reply.data);
    }
  }

  /** `deleteRoom`: removes exactly the room with that id and returns it. */
  method DeleteRoom(db: Database, id: string) returns (reply: Reply<Room>)
    requires db.Valid()
    modifies db
    ensures db.Valid()
    ensures db.guests == old(db.guests) && db.bookings == old(db.bookings)
    ensures !IsObjectIdText(id) ==>
      reply == Failure(500, CastErrorOf("Room", "_id", Str(id)).message) && db.rooms == old(db.rooms)
    ensures IsObjectIdText(id) && Canonical(id) !in old(db.rooms) ==>
      reply == Failure(404, RoomNotFound) && db.rooms == old(db.rooms)
    ensures IsObjectIdText(id) && Canonical(id) in old(db.rooms) ==>
      && reply == Success(200, Some(RoomDeleted), old(db.rooms)[Canonical(id)])
      && db.rooms == old(db.rooms) - {Canonical(id)}
  {
    var found := FindById(db.rooms, Str(id));
    match found
    case Malformed =>
      return Failure(500, CastErrorOf("Room", "_id", Str(id)).message);
    case Missing =>
      return Failure(404, RoomNotFound);
    case Found(key, room) =>
      db.rooms := db.rooms - {key};
      return Success(200, Some(RoomDeleted), room);
  }
}
