/**
 * The guest record as the guest controller stores it. The guest schema
 * itself is not part of this model: a guest document is taken to hold four
 * required String paths and nothing else, and email uniqueness is kept by
 * the store.
 */
module GuestModel {
  import opened Wrappers
  import opened Js
  import opened Schema

  datatype Guest = Guest(name: string, email: string, phone: string, address: string, createdAt: int)

  datatype GuestDoc = GuestDoc(
    name: Slot<string>,
    email: Slot<string>,
    phone: Slot<string>,
    address: Slot<string>,
    castErrors: seq<FieldError>)

  const NewGuestDoc: GuestDoc := GuestDoc(Unset, Unset, Unset, Unset, [])

  /** The document of a stored guest, as it is loaded before an update. */
  function GuestDocOf(g: Guest): GuestDoc {
    GuestDoc(Set(g.name), Set(g.email), Set(g.phone), Set(g.address), [])
  }

  function SetName(d: GuestDoc, v: Json): GuestDoc {
    var c := CastText(v);
    d.(name := Put(d.name, c), castErrors := NoteCast(d.castErrors, c, "string", "name"))
  }

  function SetEmail(d: GuestDoc, v: Json): GuestDoc {
    var c := CastText(v);
    d.(email := Put(d.email, c), castErrors := NoteCast(d.castErrors, c, "string", "email"))
  }

  function SetPhone(d: GuestDoc, v: Json): GuestDoc {
    var c := CastText(v);
    d.(phone := Put(d.phone, c), castErrors := NoteCast(d.castErrors, c, "string", "phone"))
  }

  function SetAddress(d: GuestDoc, v: Json): GuestDoc {
    var c := CastText(v);
    d.(address := Put(d.address, c), castErrors := NoteCast(d.castErrors, c, "string", "address"))
  }

  /** The default message of the `required` validator. */
  function RequiredMessage(path: string): string {
    "Path `" + path + "` is required."
  }

  function GuestErrors(d: GuestDoc): seq<FieldError> {
    AddErrors(d.castErrors,
      Required("name", d.name, RequiredMessage("name"))
      + Required("email", d.email, RequiredMessage("email"))
      + Required("phone", d.phone, RequiredMessage("phone"))
      + Required("address", d.address, RequiredMessage("address")))
  }

  predicate Acceptable(d: GuestDoc) {
    d.castErrors == [] && d.name.Set? && d.email.Set? && d.phone.Set? && d.address.Set?
  }

  /** Validation of a guest document: the stored guest, or the errors of every failing path. */
  function ValidateGuest(d: GuestDoc, createdAt: int): (r: Result<Guest, seq<FieldError>>)
    ensures r.Ok? <==> Acceptable(d)
    ensures r.Ok? ==> r.value == Guest(d.name.v, d.email.v, d.phone.v, d.address.v, createdAt)
    ensures r.Err? ==> r.error != [] && r.error == GuestErrors(d)
  {
    AddErrorsEmpty(d.castErrors,
      Required("name", d.name, RequiredMessage("name"))
      + Required("email", d.email, RequiredMessage("email"))
      + Required("phone", d.phone, RequiredMessage("phone"))
      + Required("address", d.address, RequiredMessage("address")));
    var errs := GuestErrors(d);
    if errs != [] then Err(errs)
    else Ok(Guest(d.name.v, d.email.v, d.phone.v, d.address.v, createdAt))
  }

  /** Saving a stored guest without changing it succeeds and stores the same guest. */
  lemma GuestRevalidates(g: Guest)
    ensures ValidateGuest(GuestDocOf(g), g.createdAt) == Ok(g)
  {
  }
}
