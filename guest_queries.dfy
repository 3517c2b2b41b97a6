/**
 * The guest query of the guest handlers: `Guest.find().sort({ createdAt: -1 })`,
 * every stored guest, newest first.
 */
module GuestQueries {
  import opened ObjectIds
  import opened GuestModel
  import opened Listing

  /** When each stored guest was created. */
  function GuestStamps(guests: map<Id, Guest>): (stamps: map<Id, int>)
    ensures stamps.Keys == guests.Keys
    ensures forall id :: id in stamps ==> stamps[id] == guests[id].createdAt
  {
    map id | id in guests :: guests[id].createdAt
  }

  /** Every guest of `gs` is a stored guest. */
  predicate AllStored(guests: map<Id, Guest>, gs: seq<Guest>) {
    forall i :: 0 <= i < |gs| ==> gs[i] in guests.Values
  }

  /** Creation times never go up along `gs`: the newest guest comes first. */
  predicate NewestGuestsFirst(gs: seq<Guest>) {
    forall i, j :: 0 <= i < j < |gs| ==> gs[j].createdAt <= gs[i].createdAt
  }

  /** The guests of a listing are stored guests. */
  lemma ListedGuestsStored(guests: map<Id, Guest>)
    ensures AllStored(guests, RecordsAt(guests, NewestFirst(GuestStamps(guests))))
  {
    var ids := NewestFirst(GuestStamps(guests));
    var gs := RecordsAt(guests, ids);
    RecordsStored(guests, ids, gs);
  }

  /** Every guest is in the listing. */
  lemma ListedGuestsComplete(guests: map<Id, Guest>)
    ensures var gs := RecordsAt(guests, NewestFirst(GuestStamps(guests)));
      forall id :: id in guests ==> guests[id] in gs
  {
    var stamps := GuestStamps(guests);
    var ids := NewestFirst(stamps);
    var gs := RecordsAt(guests, ids);
    RecordsListed(guests, ids, gs, guests.Keys);
  }

  /** The listing comes newest first. */
  lemma ListedGuestsNewest(guests: map<Id, Guest>)
    ensures NewestGuestsFirst(RecordsAt(guests, NewestFirst(GuestStamps(guests))))
  {
    var stamps := GuestStamps(guests);
    var ids := NewestFirst(stamps);
    var gs := RecordsAt(guests, ids);
    forall i, j | 0 <= i < j < |gs|
      ensures gs[j].createdAt <= gs[i].createdAt
    {
      assert stamps[ids[j]] <= stamps[ids[i]];
    }
  }

  /** Every guest, newest first (`sort({ createdAt: -1 })`). */
  function OrderedGuests(guests: map<Id, Guest>): (gs: seq<Guest>)
    ensures |gs| == |guests|
    ensures AllStored(guests, gs)
    ensures NewestGuestsFirst(gs)
  {
    ListedGuestsStored(guests);
    ListedGuestsNewest(guests);
    RecordsAt(guests, NewestFirst(GuestStamps(guests)))
  }

  /** Every stored guest is in the listing. */
  lemma EveryGuestListed(guests: map<Id, Guest>)
    ensures forall id :: id in guests ==> guests[id] in OrderedGuests(guests)
  {
    ListedGuestsComplete(guests);
  }

  /** A window of a listing is still a listing: stored guests, newest first. */
  lemma WindowOfGuests(guests: map<Id, Guest>, gs: seq<Guest>, skip: nat, limit: nat)
    requires AllStored(guests, gs) && NewestGuestsFirst(gs)
    ensures AllStored(guests, Window(gs, skip, limit))
    ensures NewestGuestsFirst(Window(gs, skip, limit))
  {
    var w := Window(gs, skip, limit);
    forall i | 0 <= i < |w|
      ensures w[i] in guests.Values
    {
      assert w[i] == gs[skip + i];
    }
    forall i, j | 0 <= i < j < |w|
      ensures w[j].createdAt <= w[i].createdAt
    {
      assert w[i] == gs[skip + i] && w[j] == gs[skip + j];
    }
  }
}
