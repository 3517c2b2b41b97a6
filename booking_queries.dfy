/**
 * The booking queries of the booking and guest handlers:
 * `Booking.find(filter).sort({ createdAt: -1 })` with a filter on the
 * guest (`{ guestId }`) and on the status (`{ status }`).
 */
module BookingQueries {
  import opened Wrappers
  import opened ObjectIds
  import opened BookingModel
  import opened Listing

  /** Whether `b` passes the filter: of `guest` when one is given, with `status` unless it is `""`. */
  predicate Wanted(b: Booking, guest: Option<Id>, status: string) {
    && (guest.None? || b.guestId == guest.value)
    && (status == "" || b.status == status)
  }

  /** The identifiers of the bookings the filter selects. */
  function Chosen(bookings: map<Id, Booking>, guest: Option<Id>, status: string): (ids: set<Id>)
    ensures forall id :: id in ids <==> id in bookings && Wanted(bookings[id], guest, status)
  {
    set id | id in bookings && Wanted(bookings[id], guest, status)
  }

  /** When each selected booking was created. */
  function ChosenStamps(bookings: map<Id, Booking>, guest: Option<Id>, status: string): (stamps: map<Id, int>)
    ensures forall id :: id in stamps <==> id in bookings && Wanted(bookings[id], guest, status)
    ensures forall id :: id in stamps ==> stamps[id] == bookings[id].createdAt
  {
    map id | id in bookings && Wanted(bookings[id], guest, status) :: bookings[id].createdAt
  }

  /** Every booking of `bs` passes the filter and is a stored booking. */
  predicate AllWanted(bookings: map<Id, Booking>, guest: Option<Id>, status: string, bs: seq<Booking>) {
    forall i :: 0 <= i < |bs| ==> Wanted(bs[i], guest, status) && bs[i] in bookings.Values
  }

  /** Creation times never go up along `bs`: the newest booking comes first. */
  predicate NewestBookingsFirst(bs: seq<Booking>) {
    forall i, j :: 0 <= i < j < |bs| ==> bs[j].createdAt <= bs[i].createdAt
  }

  /** The bookings of a listing pass the filter and are stored bookings. */
  lemma ListedBookingsWanted(bookings: map<Id, Booking>, guest: Option<Id>, status: string)
    ensures AllWanted(bookings, guest, status, RecordsAt(bookings, NewestFirst(ChosenStamps(bookings, guest, status))))
  {
    var stamps := ChosenStamps(bookings, guest, status);
    var ids := NewestFirst(stamps);
    var bs := RecordsAt(bookings, ids);
    RecordsStored(bookings, ids, bs);
    forall i | 0 <= i < |bs|
      ensures Wanted(bs[i], guest, status)
    {
      assert ids[i] in stamps;
    }
  }

  /** Every booking the filter selects is in the listing. */
  lemma ListedBookingsComplete(bookings: map<Id, Booking>, guest: Option<Id>, status: string)
    ensures var bs := RecordsAt(bookings, NewestFirst(ChosenStamps(bookings, guest, status)));
      forall id :: id in bookings && Wanted(bookings[id], guest, status) ==> bookings[id] in bs
  {
    var stamps := ChosenStamps(bookings, guest, status);
    var ids := NewestFirst(stamps);
    var bs := RecordsAt(bookings, ids);
    RecordsListed(bookings, ids, bs, Chosen(bookings, guest, status));
  }

  /** The listing comes newest first. */
  lemma ListedBookingsNewest(bookings: map<Id, Booking>, guest: Option<Id>, status: string)
    ensures NewestBookingsFirst(RecordsAt(bookings, NewestFirst(ChosenStamps(bookings, guest, status))))
  {
    var stamps := ChosenStamps(bookings, guest, status);
    var ids := NewestFirst(stamps);
    var bs := RecordsAt(bookings, ids);
    forall i, j | 0 <= i < j < |bs|
      ensures bs[j].createdAt <= bs[i].createdAt
    {
      assert stamps[ids[j]] <= stamps[ids[i]];
    }
  }

  /** A listing holds as many bookings as the filter selects. */
  lemma ListedBookingsCount(bookings: map<Id, Booking>, guest: Option<Id>, status: string)
    ensures |RecordsAt(bookings, NewestFirst(ChosenStamps(bookings, guest, status)))| == |Chosen(bookings, guest, status)|
  {
    assert ChosenStamps(bookings, guest, status).Keys == Chosen(bookings, guest, status);
  }

  /** The bookings the filter selects, each once, newest first. */
  function NewestBookings(bookings: map<Id, Booking>, guest: Option<Id>, status: string): (bs: seq<Booking>)
    ensures |bs| == |Chosen(bookings, guest, status)|
    ensures AllWanted(bookings, guest, status, bs)
    ensures NewestBookingsFirst(bs)
  {
    ListedBookingsCount(bookings, guest, status);
    ListedBookingsWanted(bookings, guest, status);
    ListedBookingsNewest(bookings, guest, status);
    RecordsAt(bookings, NewestFirst(ChosenStamps(bookings, guest, status)))
  }

  /** Every booking the filter selects is in the listing. */
  lemma EveryChosenBookingListed(bookings: map<Id, Booking>, guest: Option<Id>, status: string)
    ensures forall id :: id in bookings && Wanted(bookings[id], guest, status) ==> bookings[id] in NewestBookings(bookings, guest, status)
  {
    ListedBookingsComplete(bookings, guest, status);
  }

  /** A window of a listing is still a listing: selected bookings, newest first. */
  lemma WindowOfBookings(bookings: map<Id, Booking>, guest: Option<Id>, status: string, bs: seq<Booking>, skip: nat, limit: nat)
    requires AllWanted(bookings, guest, status, bs) && NewestBookingsFirst(bs)
    ensures AllWanted(bookings, guest, status, Window(bs, skip, limit))
    ensures NewestBookingsFirst(Window(bs, skip, limit))
  {
    var w := Window(bs, skip, limit);
    forall i | 0 <= i < |w|
      ensures Wanted(w[i], guest, status) && w[i] in bookings.Values
    {
      assert w[i] == bs[skip + i];
    }
    forall i, j | 0 <= i < j < |w|
      ensures w[j].createdAt <= w[i].createdAt
    {
      assert w[i] == bs[skip + i] && w[j] == bs[skip + j];
    }
  }
}
