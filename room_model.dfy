/**
 * The room schema (models/Room.js): the record a room is stored as, the
 * constraints every stored room satisfies, and the validation a room
 * document goes through before it is stored.
 */
module RoomModel {
  import opened Wrappers
  import opened Strings
  import opened Js
  import opened Schema

  const RoomTypes: seq<string> := ["single", "double", "deluxe", "suite"]
  const RoomStatuses: seq<string> := ["available", "occupied", "maintenance"]
  const DefaultRoomStatus: string := "available"

  /** A stored room; `kind` is the schema's `type` path. */
  datatype Room = Room(
    number: string,
    kind: string,
    price: real,
    capacity: real,
    status: string,
    amenities: seq<string>,
    createdAt: int)

  /**
   * The record invariant: a non-empty, trimmed number; a known type and
   * status; a price of at least 0 and a capacity of at least 1.
   */
  predicate ValidRoom(r: Room) {
    && r.number != "" && IsTrimmed(r.number)
    && r.kind in RoomTypes
    && r.price >= 0.0
    && r.capacity >= 1.0
    && r.status in RoomStatuses
  }

  /** A room document being assembled or updated, path by path. */
  datatype RoomDoc = RoomDoc(
    number: Slot<string>,
    kind: Slot<string>,
    price: Slot<real>,
    capacity: Slot<real>,
    status: Slot<string>,
    amenities: Slot<seq<string>>,
    castErrors: seq<FieldError>)

  const NewRoomDoc: RoomDoc := RoomDoc(Unset, Unset, Unset, Unset, Unset, Unset, [])

  /** The document of a stored room, as it is loaded before an update. */
  function RoomDocOf(r: Room): RoomDoc {
    RoomDoc(Set(r.number), Set(r.kind), Set(r.price), Set(r.capacity), Set(r.status), Set(r.amenities), [])
  }

  function SetNumber(d: RoomDoc, v: Json): RoomDoc {
    var c := CastText(v);
    d.(number := Put(d.number, c), castErrors := NoteCast(d.castErrors, c, "string", "number"))
  }

  function SetKind(d: RoomDoc, v: Json): RoomDoc {
    var c := CastText(v);
    d.(kind := Put(d.kind, c), castErrors := NoteCast(d.castErrors, c, "string", "type"))
  }

  function SetPrice(d: RoomDoc, v: Json): RoomDoc {
    var c := CastNumber(v);
    d.(price := Put(d.price, c), castErrors := NoteCast(d.castErrors, c, "Number", "price"))
  }

  function SetCapacity(d: RoomDoc, v: Json): RoomDoc {
    var c := CastNumber(v);
    d.(capacity := Put(d.capacity, c), castErrors := NoteCast(d.castErrors, c, "Number", "capacity"))
  }

  function SetStatus(d: RoomDoc, v: Json): RoomDoc {
    var c := CastText(v);
    d.(status := Put(d.status, c), castErrors := NoteCast(d.castErrors, c, "string", "status"))
  }

  function SetAmenities(d: RoomDoc, v: Json): RoomDoc {
    var c := CastTextList(v);
    d.(amenities := Put(d.amenities, c), castErrors := NoteCast(d.castErrors, c, "[string]", "amenities"))
  }

  /** `number`: required (after the `trim` setter). */
  function NumberCheck(s: Slot<string>): seq<FieldError> {
    if s.Set? && Trim(s.v) != "" then [] else [FieldError("number", "Room number is required")]
  }

  /** `type`: required, then one of the room types. */
  function KindCheck(s: Slot<string>): seq<FieldError> {
    if !s.Set? || s.v == "" then [FieldError("type", "Room type is required")]
    else if s.v in RoomTypes then []
    else [FieldError("type", EnumMessage(s.v, "type"))]
  }

  /** `price`: required, then at least 0. */
  function PriceCheck(s: Slot<real>): seq<FieldError> {
    if !s.Set? then [FieldError("price", "Price is required")]
    else if s.v < 0.0 then [FieldError("price", "Price cannot be negative")]
    else []
  }

  /** `capacity`: required, then at least 1. */
  function CapacityCheck(s: Slot<real>): seq<FieldError> {
    if !s.Set? then [FieldError("capacity", "Capacity is required")]
    else if s.v < 1.0 then [FieldError("capacity", "Capacity must be at least 1")]
    else []
  }

  /** `status`: one of the room states; an unset status takes the default. */
  function StatusCheck(s: Slot<string>): seq<FieldError> {
    match s
    case Unset => []
    case Nil => [FieldError("status", EnumMessage("null", "status"))]
    case Set(v) => if v in RoomStatuses then [] else [FieldError("status", EnumMessage(v, "status"))]
  }

  /** The path validators' errors, in schema order. */
  function PathErrors(d: RoomDoc): seq<FieldError> {
    NumberCheck(d.number) + KindCheck(d.kind) + PriceCheck(d.price)
    + CapacityCheck(d.capacity) + StatusCheck(d.status)
  }

  /** The errors `validate()` reports: failed casts first, then the path validators. */
  function RoomErrors(d: RoomDoc): seq<FieldError> {
    AddErrors(d.castErrors, PathErrors(d))
  }

  /** When validation lets a room document through, stated path by path. */
  predicate Acceptable(d: RoomDoc) {
    && d.castErrors == []
    && d.number.Set? && Trim(d.number.v) != ""
    && d.kind.Set? && d.kind.v in RoomTypes
    && d.price.Set? && d.price.v >= 0.0
    && d.capacity.Set? && d.capacity.v >= 1.0
    && !d.status.Nil? && (d.status.Set? ==> d.status.v in RoomStatuses)
  }

  /** Validation reports no error exactly on the acceptable documents. */
  lemma RoomErrorsEmpty(d: RoomDoc)
    ensures RoomErrors(d) == [] <==> Acceptable(d)
  {
    AddErrorsEmpty(d.castErrors, PathErrors(d));
  }

  /**
   * Validation of a room document: either the room that is stored, with the
   * trimmed number and the schema defaults for `status` and `amenities`, or
   * the errors of every failing path.
   */
  function ValidateRoom(d: RoomDoc, createdAt: int): (r: Result<Room, seq<FieldError>>)
    ensures r.Ok? <==> Acceptable(d)
    ensures r.Ok? ==> ValidRoom(r.value)
    ensures r.Ok? ==>
      && r.value.number == Trim(d.number.v)
      && r.value.kind == d.kind.v
      && r.value.price == d.price.v
      && r.value.capacity == d.capacity.v
      && r.value.status == (if d.status.Set? then d.status.v else DefaultRoomStatus)
      && r.value.amenities == (if d.amenities.Set? then d.amenities.v else [])
      && r.value.createdAt == createdAt
    ensures r.Err? ==> r.error != [] && r.error == RoomErrors(d)
  {
    RoomErrorsEmpty(d);
    var errs := RoomErrors(d);
    if errs != [] then Err(errs)
    else
      Ok(Room(
        Trim(d.number.v),
        d.kind.v,
        d.price.v,
        d.capacity.v,
        if d.status.Set? then d.status.v else DefaultRoomStatus,
        if d.amenities.Set? then d.amenities.v else [],
        createdAt))
  }

  /** Saving a stored room without changing it succeeds and stores the same room. */
  lemma RoomRevalidates(r: Room)
    requires ValidRoom(r)
    ensures ValidateRoom(RoomDocOf(r), r.createdAt) == Ok(r)
  {
    TrimmedIsFixedPoint(r.number);
  }
}
