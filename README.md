# Hotel booking API — a verified model

This project models the decision logic of a small hotel-booking REST API. The API keeps rooms, guests and bookings in a document database.

What is modelled:

- **The request validators** (`middleware/validation.js`). Each one lets a request through, answers 400 with a fixed message, or throws.
- **The room and booking schemas** (`models/Room.js`, `models/Booking.js`). This covers:
  - casting on assignment;
  - required paths, enums, minimums and defaults;
  - the trimmed room number;
  - the hook that rejects a check-out that is not after the check-in.
- **The three controllers.** These are listing with filter, sort order and pagination, lookup by id, create, partial update and delete, over a `Database` class that holds one map per collection.
- **The global error handler** (`middleware/errorHandler.js`).

How each part is represented:

| Part | Representation |
|---|---|
| Request bodies | maps from field name to a JSON value. JavaScript truthiness, `trim`, `Number(..)` and `new Date(..)` are written out, or passed in as parameters (see "Left out"). |
| Pure code | the validators, the schemas, the error handler and the queries are functions. |
| Operations that change the store | `create*`, `update*` and `delete*` are methods on `Store.Database`. Each method is specified by a pure `*Reply` function and states the new contents of every collection. |
| Store invariant | `Database.Valid`: every stored room and booking satisfies its schema, room numbers are unique, and guest e-mail addresses are unique. |

Modules, one per source file plus shared pieces:

| Module | Models |
|---|---|
| `Validation`, `Email` | `middleware/validation.js` |
| `RoomModel` | `models/Room.js` |
| `BookingModel` | `models/Booking.js` |
| `GuestModel` | guest documents (`models/Guest.js` is not part of this model) |
| `ErrorHandler` | `middleware/errorHandler.js` |
| `RoomController` | `controllers/roomController.js` |
| `GuestController`, `GuestQueries` | `controllers/guestController.js` |
| `BookingController`, `BookingQueries` | `controllers/bookingController.js` |
| `Js`, `Strings`, `Numerals`, `ObjectIds`, `Schema`, `Listing`, `Store`, `Wrappers` | the JavaScript values and the database behaviour these files rely on |

Error handling differs between the controllers:

- **Room and guest handlers** answer errors themselves:
  - a failed create or update is answered with 400 and the error's message;
  - a failed lookup in get or delete is answered with 500;
  - a failed lookup in an update is answered with 400.
- **Booking handlers** pass CastErrors and ValidationErrors on to the error handler (`Reply.Forward`). The error handler answers both with 400.

## Model

| member | source | states |
|---|---|---|
| Validation.ValidateRequired | middleware/validation.js:7-26 | Lets the request through exactly when no listed field is missing; otherwise rejects with every missing field, in list order, joined by ", " |
| Validation.MissingFieldsMembers | middleware/validation.js:11-15 | A field is reported exactly when it is listed and its value is falsy or prints blank after trimming |
| Validation.MissingFieldsAppend | middleware/validation.js:11-15 | Checking `a + b` reports `a`'s missing fields, then `b`'s |
| Validation.ValidateRoomCreate | middleware/validation.js:29-61 | Accepts iff number, type and capacity are truthy, price is not undefined, price is a number >= 0, capacity is a number >= 1 and type is one of the four room types. The presence message appears exactly when the first check fails. Never throws |
| Validation.ValidateRoomUpdate | middleware/validation.js:64-96 | Accepts iff each rule holds for the fields it applies to (price or capacity when not undefined; type or status when truthy). The price message appears exactly when a present price is not a number >= 0 |
| Validation.EmptyRoomUpdateAccepted | middleware/validation.js:64-96 | An empty update passes |
| Validation.NameCheck | middleware/validation.js:117-122 | Passes iff the name is a string whose trimmed form is at least 2 UTF-16 code units long (JavaScript's `length`); any non-string throws, because `name.trim` is not a function |
| Validation.SupplementaryNameAccepted | middleware/validation.js:117 | A name of one character outside the Basic Multilingual Plane has length 2 and passes |
| Validation.ValidateGuestCreate | middleware/validation.js:99-125 | Accepts iff the four fields are truthy, the printed form `String(email)` matches the e-mail pattern, and the trimmed name is at least 2 UTF-16 code units long. The presence message appears exactly when a field is falsy; the e-mail message only for a non-matching e-mail; it throws only for a truthy name that is not a string |
| Validation.MatchedEmailTruthy | middleware/validation.js:102-110 | A value whose printed form matches is truthy, so the presence check never hides a matching e-mail |
| Validation.AcceptedGuestComplete | middleware/validation.js:102-125 | A guest that meets the acceptance condition has all four fields present |
| Validation.EmailArrayWithNullMatches | middleware/validation.js:109-110 | The array `["a@b.c", null]` is tested as its printed form "a@b.c," and matches |
| Validation.ValidateGuestUpdate | middleware/validation.js:128-149 | Accepts iff a truthy e-mail's printed form matches and a truthy name is a string whose trimmed form is at least 2 UTF-16 code units long; throws only for a truthy name that is not a string |
| Validation.ValidateBookingCreate | middleware/validation.js:153-214 | Accepts iff the five fields are present, both dates parse, check-out is strictly after check-in and the price is a number > 0. A missing guestId is reported first. The ordering message appears exactly when the fields are present and both dates parse but check-out is not after check-in. Never throws |
| Validation.SameDayRejected | middleware/validation.js:197-202 | Equal check-in and check-out dates are rejected |
| Validation.ValidateBookingUpdate | middleware/validation.js:217-247 | Accepts iff the dates are in order (checked only when both are truthy), a present price is a number > 0, and a truthy status is one of the five booking states |
| Validation.ValidateMongoId | middleware/validation.js:250-262 | Accepts iff the id is exactly 24 hexadecimal digits, which is also exactly when it casts to an identifier |
| Validation.ValidatePagination | middleware/validation.js:265-286 | Accepts iff page (when given) parses to at least 1 and limit (when given) parses to a value between 1 and 100. The page message appears exactly when a given page does not parse or is < 1. Never throws |
| Email.IsEmailCorrect | middleware/validation.js:109-110 | The decision procedure accepts exactly the strings of the regular expression's language: `L@D.T` with non-empty runs that contain neither whitespace nor `@` |
| Email.IsEmailSound | middleware/validation.js:109-110 | Every accepted string is in the language |
| Email.IsEmailComplete | middleware/validation.js:109-110 | Every string of the language is accepted |
| Email.SecondAtRejected | middleware/validation.js:132-133 | A string with two `@` is rejected |
| Strings.Trim | models/Room.js:9 | The result is the input with a blank prefix and a blank suffix removed, has no white space at either end, and is empty exactly when the input is blank |
| Strings.BlankBorders | models/Room.js:9 | Dropping a blank prefix and then a blank suffix leaves a slice of the input with only blanks outside it |
| Strings.TrimUnspaced | models/Room.js:9 | A string that neither starts nor ends with white space is its own trim |
| Strings.Utf16Length | middleware/validation.js:117 | JavaScript's `length` lies between the number of characters and twice that number |
| Strings.BasicPlaneLength | middleware/validation.js:117 | Without characters outside the Basic Multilingual Plane, `length` is the number of characters |
| Strings.TrimIdempotent | models/Room.js:9 | Trimming twice is trimming once |
| Strings.JoinOffset | middleware/errorHandler.js:14-15 | Every message appears, unchanged, inside the joined text |
| Strings.Capitalize | middleware/errorHandler.js:25 | Same length; the first character upper-cased, the rest unchanged |
| Js.Print | middleware/validation.js:109-110 | `String(v)`: a string prints as itself, an integer as its decimal digits |
| Js.ToNumber | controllers/bookingController.js:99 | `Number(v)`: a number is itself, a string is read as a numeric literal, `undefined` and objects are NaN |
| Js.IntegerTextRead | controllers/bookingController.js:99 | `Number` reads back the printed form of every integer, also as a one-element array |
| Numerals.StringToNumber | controllers/bookingController.js:99 | A blank string reads as 0 |
| Numerals.DecimalText | controllers/bookingController.js:99 | The digits of a natural number: non-empty, decimal digits only, no leading zero |
| Numerals.DecimalValue | controllers/bookingController.js:99 | Reading the printed digits of `n` gives `n` |
| Numerals.DecimalRead | controllers/bookingController.js:99 | The printed digits of `n` parse as an unsigned decimal literal with value `n` |
| Numerals.NegativeLiteral | controllers/bookingController.js:99 | A minus sign before an unsigned literal negates its value, and keeps NaN as NaN |
| Numerals.NaturalRoundTrip | controllers/bookingController.js:99 | `Number(String(n))` is `n` for every natural number |
| Numerals.IntegerRoundTrip | controllers/bookingController.js:148 | `Number(String(i))` is `i` for every integer |
| Numerals.ReadsFraction | controllers/bookingController.js:148 | `Number("12.5")` is 12.5 |
| Numerals.ReadsHexadecimal | controllers/bookingController.js:148 | `Number("0x1A")` is 26 |
| Numerals.RejectsTrailingText | controllers/bookingController.js:148 | `Number("12abc")` is NaN |
| Schema.CastNumber | controllers/roomController.js:71-78 | A number casts to itself, a numeric string to the number it reads as, the empty string to null; arrays, objects and non-numeric strings fail |
| Schema.NumericTextCast | controllers/roomController.js:108 | A string holding an integer's digits casts to that integer |
| Schema.CastTextList | controllers/roomController.js:77 | An array of strings casts to the same strings in order; a successful cast stores a list exactly when the value is neither undefined nor null |
| ObjectIds.CastObjectId | middleware/validation.js:252 | A value casts to an identifier exactly when it is a string of 24 hexadecimal digits; the identifier is its lower-case spelling |
| ObjectIds.CaseInsensitive | middleware/validation.js:252 | Two spellings that differ only in letter case name the same record |
| ObjectIds.CanonicalRoundTrip | middleware/validation.js:252 | Every identifier casts back to itself |
| ErrorHandler.Handle | middleware/errorHandler.js:5-49 | Rethrows exactly when a ValidationError has no `errors` or a duplicate key has no key. Every answer other than the fallback is 400 with no detail. A CastError gets "Invalid ID format". Detail is shown exactly in development for the fallback. The fallback answers `statusCode || 500` with `message || "Internal Server Error"`, so its status and message are never empty |
| ErrorHandler.FallbackStatus | middleware/errorHandler.js:9 | `statusCode` when it is non-zero; 500 when it is missing or 0; never 0 |
| ErrorHandler.FallbackMessage | middleware/errorHandler.js:10 | `message` when it is non-empty; "Internal Server Error" when it is empty; never empty |
| ErrorHandler.UnstatusedErrorAnswered | middleware/errorHandler.js:9-10 | An error with a message but no status code is answered with 500 and its own message, with detail only in development |
| ErrorHandler.PlainErrorAnswered | middleware/errorHandler.js:9-10 | An error with no status code and no message is answered with 500 "Internal Server Error", with detail only in development |
| ErrorHandler.ValidationErrorAnswered | middleware/errorHandler.js:13-20 | A ValidationError is answered with 400, and each of its messages appears in the answer |
| ErrorHandler.DuplicateKeyAnswered | middleware/errorHandler.js:23-30 | A duplicate key is answered with 400 and "<Field> already exists": the first key, first letter upper-cased, the rest unchanged |
| ErrorHandler.FallbackAnswered | middleware/errorHandler.js:41-48 | The fallback answers with the error's own status and message, plus detail in development |
| RoomModel.ValidateRoom | models/Room.js:3-37 | Succeeds iff the document is acceptable. The room then satisfies the schema invariant, holds the trimmed number and the assigned values, and takes the defaults "available" and `[]`. Otherwise it reports the errors of every failing path |
| RoomModel.RoomErrorsEmpty | models/Room.js:5-34 | No error is reported exactly on acceptable documents |
| RoomModel.RoomRevalidates | models/Room.js:3-37 | Saving a stored room unchanged stores the same room |
| BookingModel.DateOrderHook | models/Booking.js:46-55 | Adds the ordering error on `checkOut` exactly when both dates are set and check-out is not after check-in; otherwise adds nothing |
| BookingModel.ValidateBooking | models/Booking.js:3-55 | Succeeds iff the document is acceptable. The booking then satisfies the invariant, holds the assigned values, and takes the defaults "pending" and empty notes. Otherwise it reports the cast errors, the hook's error and the path errors |
| BookingModel.BookingErrorsEmpty | models/Booking.js:5-55 | No error is reported exactly on acceptable documents |
| BookingModel.DateOrderRejected | models/Booking.js:46-55 | Dates out of order are rejected, with the ordering message on `checkOut` |
| BookingModel.BookingRevalidates | models/Booking.js:3-39 | Saving a stored booking unchanged stores the same booking |
| GuestModel.ValidateGuest | controllers/guestController.js:65-70 | Succeeds iff the four paths hold strings and no cast failed; the guest holds those four strings |
| GuestModel.GuestRevalidates | controllers/guestController.js:103 | Saving a stored guest unchanged stores the same guest |
| Listing.Ordered | controllers/roomController.js:17-20 | Lists every record exactly once, each before the ones that follow it in sort order |
| Listing.OrderedDistinct | controllers/roomController.js:17-20 | No record is listed twice |
| Listing.OrderedNeverDescends | controllers/roomController.js:20 | Sort keys never go down along the listing |
| Listing.NewestFirst | controllers/guestController.js:11-14 | Lists every record once, creation times never increasing |
| Listing.Window | controllers/roomController.js:18-19 | At most `limit` records, starting at position `skip` |
| Listing.PageCount | controllers/roomController.js:31 | The least page count whose pages hold every record (integer ceiling of total / limit) |
| Listing.Paginate | controllers/roomController.js:8-33 | The window at `(page - 1) * limit`, with the total, page, limit and page count |
| Listing.PagesCover | controllers/roomController.js:9-31 | Record `i` is on page `i / limit + 1`, which is at most the page count |
| Listing.PageEmptyPastLast | controllers/roomController.js:9-31 | A page is empty exactly when it is past the last page |
| Store.RoomStored | models/Room.js:8 | Storing a valid room whose number no other room has keeps every room valid and the numbers unique |
| Store.GuestStored | controllers/guestController.js:74-78 | Storing a guest whose e-mail no other guest has keeps the e-mail addresses unique |
| Store.Database.PutRoom | controllers/roomController.js:113 | Stores the room under its key, keeps the invariant, leaves the other collections alone |
| Store.Database.PutGuest | controllers/guestController.js:103 | Stores the guest under its key, keeps the invariant, leaves the other collections alone |
| Store.Database.PutBooking | controllers/bookingController.js:158 | Stores the booking under its key, keeps the invariant, leaves the other collections alone |
| Store.FindById | controllers/roomController.js:44 | Malformed exactly when the value does not cast, Missing exactly when no record has that id, otherwise the stored record |
| Store.CastErrorAnsweredAsInvalidId | middleware/errorHandler.js:33-38 | A CastError is answered with 400 "Invalid ID format" |
| Store.ValidationErrorAnsweredWithMessages | middleware/errorHandler.js:13-20 | A ValidationError from `save()` is answered with 400 and its messages joined by ", " |
| RoomController.Selected | controllers/roomController.js:12-15 | A room is selected exactly when no status filter is given or its status matches |
| RoomController.ListedRooms | controllers/roomController.js:17-20 | The listing holds only selected, stored rooms, ordered by number |
| RoomController.OrderedRooms | controllers/roomController.js:17-22 | As many rooms as are selected, every selected room listed, all listed rooms selected and stored, ordered by number |
| RoomController.GetAllRooms | controllers/roomController.js:6-37 | The page is the window at `(page - 1) * limit` of at most `limit` rooms of the complete number-ordered listing of selected rooms; total is the number of selected rooms and pages is ceil(total / limit) |
| RoomController.WindowOfListing | controllers/roomController.js:18-19 | A window of the listing is still selected, stored and ordered |
| RoomController.GetRoomById | controllers/roomController.js:42-54 | 200 with the stored room iff the id names one; 404 for a missing room; 500 for a malformed id |
| RoomController.CreatedRoom | controllers/roomController.js:71-78 | A created room holds the trimmed number, the type, the price and capacity as the schema casts them (a numeric string read as `Number` reads it), the given status or "available", and the given amenities as cast to a list of strings or none |
| RoomController.ZeroPriceRejectedOnlyByController | controllers/roomController.js:64-69 | A price of 0 passes the validator but fails the controller's presence check |
| RoomController.CreateRoomReply | controllers/roomController.js:59-90 | A success is 201 with a valid room whose number no room has; every failure is 400; nothing is passed on |
| RoomController.CreateRoomAnswers | controllers/roomController.js:59-90 | Checks come in this order: presence, validation, then duplicate number, each with its message. Success iff all pass, with the validated room |
| RoomController.CreateRoom | controllers/roomController.js:59-90 | Stores the room under a fresh id exactly on success; otherwise nothing changes; the invariant is kept |
| RoomController.UpdatedRoomDocPaths | controllers/roomController.js:106-111 | Each assignment touches only its own path: truthy for number, type, capacity, status and amenities; not undefined for price |
| RoomController.UpdateCastErrorsEmpty | controllers/roomController.js:106-113 | The update records no cast error exactly when every assigned value casts |
| RoomController.UpdatedRoomCastErrors | controllers/roomController.js:106-113 | The update records exactly the cast failures of the values it assigns, in assignment order |
| RoomController.UpdatedRoomSaved | controllers/roomController.js:106-113 | A saved update holds the request's values where they were assigned and the stored ones elsewhere |
| RoomController.SavedDocHoldsUpdate | controllers/roomController.js:106-113 | The same, for any document with the update's paths and cast errors |
| RoomController.EmptyUpdateKeepsRoom | controllers/roomController.js:106-113 | An empty update saves the stored room unchanged |
| RoomController.UpdateRoomReply | controllers/roomController.js:95-125 | A success is 200 with a valid room that holds the update and whose number no other room has; failures are 400 or 404; nothing is passed on |
| RoomController.UpdateRoomAnswers | controllers/roomController.js:95-125 | 400 with the cast message for a malformed id, 404 for a missing room, then the validation failure, then the duplicate number, otherwise the updated room |
| RoomController.UpdateRoom | controllers/roomController.js:95-125 | Replaces the stored room exactly on success; otherwise nothing changes; the invariant is kept |
| RoomController.DeleteRoom | controllers/roomController.js:130-142 | Removes exactly that room and returns it, or answers 404 or 500 with nothing changed |
| GuestQueries.OrderedGuests | controllers/guestController.js:11-14 | Every guest, each a stored guest, newest first |
| GuestQueries.EveryGuestListed | controllers/guestController.js:11-16 | No stored guest is missing from the listing |
| GuestQueries.WindowOfGuests | controllers/guestController.js:12-13 | A window of the listing holds stored guests, newest first |
| GuestController.GetAllGuests | controllers/guestController.js:6-31 | The page is the window at `(page - 1) * limit` of at most `limit` guests of the complete newest-first listing of all guests; total is the number of guests and pages is ceil(total / limit) |
| GuestController.GetGuestById | controllers/guestController.js:36-48 | 200 with the stored guest iff the id names one; 404 for a missing guest; 500 for a malformed id |
| GuestController.CreateGuestReply | controllers/guestController.js:53-82 | A success is 201 with exactly the request's four strings and an e-mail no guest has; every failure is 400 |
| GuestController.CreateGuestAnswers | controllers/guestController.js:53-82 | Checks come in this order: presence, validation, then duplicate e-mail, each with its message. Success iff all pass |
| GuestController.CreateGuestAccepts | controllers/guestController.js:53-82 | A request of four non-empty strings whose e-mail is free creates exactly that guest |
| GuestController.CreateGuest | controllers/guestController.js:53-82 | Stores the guest under a fresh id exactly on success; otherwise nothing changes; the invariant is kept |
| GuestController.UpdatedGuestDocPaths | controllers/guestController.js:98-101 | Each truthy field is assigned to its own path only; no cast error exactly when every assigned value casts |
| GuestController.UpdatedGuestSaved | controllers/guestController.js:98-103 | A saved update holds the truthy request fields and the stored ones elsewhere |
| GuestController.EmptyUpdateKeepsGuest | controllers/guestController.js:98-103 | An empty update saves the stored guest unchanged |
| GuestController.UpdateGuestReply | controllers/guestController.js:87-115 | A success is 200 with the stored guest updated by the request and an e-mail no other guest has; failures are 400 or 404; nothing is passed on |
| GuestController.UpdateGuestAnswers | controllers/guestController.js:87-115 | The answer for each case, in the order the handler checks them |
| GuestController.UpdateGuest | controllers/guestController.js:87-115 | Replaces the stored guest exactly on success; otherwise nothing changes; the invariant is kept |
| GuestController.DeleteGuest | controllers/guestController.js:120-132 | Removes exactly that guest and returns it, or answers 404 or 500 with nothing changed; bookings are untouched |
| GuestController.GetGuestBookings | controllers/guestController.js:137-149 | Exactly as many bookings as the guest has, each one of the guest's stored bookings, newest first; 500 for a malformed id |
| GuestController.GuestBookingsComplete | controllers/guestController.js:141-143 | No booking of the guest is missing from the answer |
| BookingQueries.Chosen | controllers/bookingController.js:13-14 | A booking is selected exactly when it passes the guest and status filters |
| BookingQueries.ListedBookingsCount | controllers/bookingController.js:16-23 | The listing holds as many bookings as the filter selects, the number `countDocuments` reports |
| BookingQueries.NewestBookings | controllers/bookingController.js:16-21 | As many bookings as are selected, each a selected stored booking, newest first |
| BookingQueries.EveryChosenBookingListed | controllers/bookingController.js:16-21 | No selected booking is missing from the listing |
| BookingQueries.WindowOfBookings | controllers/bookingController.js:19-20 | A window of the listing holds selected stored bookings, newest first |
| BookingController.GetAllBookings | controllers/bookingController.js:8-38 | The page is the window at `(page - 1) * limit` of at most `limit` bookings of the complete newest-first listing of the bookings matching the status filter; total counts those bookings and pages is ceil(total / limit) |
| BookingController.GetBookingById | controllers/bookingController.js:43-60 | 200 with the stored booking iff the id names one; 404 for a missing booking; a malformed id is passed on as a CastError |
| BookingController.PassedErrorsAnswered | middleware/errorHandler.js:13-38 | Every error the booking handlers pass on is answered with 400, a CastError with "Invalid ID format" |
| BookingController.CreatedBooking | controllers/bookingController.js:94-102 | A created booking holds the named guest and room, the two dates, `Number(totalPrice)` (numeric strings and one-element arrays included), the notes (empty when falsy) and the status ("pending" when falsy) |
| BookingController.CreateDateCheckPrecedesHook | controllers/bookingController.js:87-92 | Once the controller's date check passes, the schema hook has nothing to reject |
| BookingController.CreateBookingReply | controllers/bookingController.js:65-116 | A success is 201 with a valid booking whose guest and room are stored, holding the request's values; failures are 400 or 404; passed-on errors are answered with 400 |
| BookingController.CreateBookingAnswers | controllers/bookingController.js:71-116 | Checks come in this order: presence, guest (malformed, then missing), room (malformed, then missing), date order, then validation. Otherwise the new booking |
| BookingController.CreateBookingAccepts | controllers/bookingController.js:94-112 | A request for a stored guest and room, with ordered dates and a positive price, creates a pending booking with empty notes |
| BookingController.CreateBooking | controllers/bookingController.js:65-116 | Stores exactly one new booking exactly on success; every rejection leaves the store unchanged; the invariant is kept |
| BookingController.AssignRefsPaths | controllers/bookingController.js:133-143 | Assigning the references touches only guestId and roomId |
| BookingController.AssignDatesPaths | controllers/bookingController.js:145-146 | Assigning the dates touches only the dates and appends their cast failures |
| BookingController.AssignDetailsPaths | controllers/bookingController.js:147-149 | Assigning status, price and notes touches only those paths and appends their cast failures |
| BookingController.UpdatedBookingDocPaths | controllers/bookingController.js:133-149 | Each assignment touches only its own path (truthy for references, dates and status; not undefined for price and notes); the cast failures are recorded in assignment order |
| BookingController.UpdateCastErrorsEmpty | controllers/bookingController.js:145-149 | No cast error exactly when every assigned value casts |
| BookingController.SavedDocHoldsUpdate | controllers/bookingController.js:133-158 | A saved document with the update's paths holds the request's values where assigned and the stored ones elsewhere |
| BookingController.UpdatedBookingSaved | controllers/bookingController.js:133-158 | A saved update overwrites only the supplied fields and keeps every other field and the creation time |
| BookingController.UpdateBookingReply | controllers/bookingController.js:121-172 | A success is 200 with a valid booking that holds the update, naming stored guests and rooms where changed. Failures are 400 or 404, and passed-on errors are answered with 400 |
| BookingController.UpdateBookingAnswers | controllers/bookingController.js:127-143 | A malformed id is passed on; a missing booking is 404; then the guest and room lookups are checked, each only when supplied |
| BookingController.UpdateBookingSaves | controllers/bookingController.js:151-168 | Past the lookups, merged dates out of order give 400, then a failed validation is passed on, otherwise the updated booking is saved |
| BookingController.EmptyUpdateKeepsBooking | controllers/bookingController.js:121-172 | An empty update answers 200 with the stored booking unchanged |
| BookingController.UpdateBooking | controllers/bookingController.js:121-172 | Replaces exactly that booking on success; every other outcome leaves the store unchanged; the invariant is kept |
| BookingController.DeleteBooking | controllers/bookingController.js:177-195 | Removes exactly that booking and returns it; 404 for a missing one and a passed-on CastError for a malformed id, with nothing changed |

## Left out

- I/O and framework plumbing are not modelled: `server.js`, `utils/seedData.js`, `console.log` calls, and the `res.status().json()` encoding. A reply is a `Reply` value.
- The routes (`routes/*.js`) are not modelled. No member chains a validator in front of a controller: each validator and each controller is modelled on its own.
- `populate` is not modelled. Responses carry the stored identifiers of the guest and room, not the expanded records.
- Concurrency is not modelled. Each handler runs as one atomic step on the store, so the check-then-act race between concurrent requests is out of scope.
- Date parsing is a parameter. `new Date(x)` is the caller-supplied `dateOf: Json -> Option<int>`, where `None` is an Invalid Date. `parseInt(x)` is the `Param` value of a query parameter.
- In the listing handlers, `page` and `limit` are positive naturals. The NaN arithmetic of non-numeric query values is not modelled.
- Numbers are `real`. NaN appears only as `None` from `ToNumber` and `StringToNumber`; floating-point rounding is not modelled.
- StringToNumber: reads "Infinity" and "-Infinity" as NaN rather than as infinities, and gives exact values without double-precision rounding or overflow.
- EmailMatches: an array holding a number that is not an integer, or a number of 10^21 or more in magnitude, is taken not to match, because the printing of such numbers is not modelled.
- ValidateGuestCreate: for the e-mail, the same gap as `EmailMatches`, the only case where its contract is weaker than the source.
- ValidateGuestUpdate: for the e-mail, the same gap as `EmailMatches`, the only case where its contract is weaker than the source.
- CreatedBooking: a `totalPrice` of `Infinity` written as text reads as NaN, the same gap as `StringToNumber`.
- Capitalize: upper-cases ASCII letters only. The field names it is applied to are the schemas' ASCII path names.
- Timestamps: `createdAt` is the caller-supplied `now`, and `updatedAt` is not modelled.
- Sorting ties between equal keys are broken by identifier. The database leaves their order unspecified.
- `models/Guest.js` is not part of this model. Guest documents have four required string paths, and e-mail uniqueness is the store invariant that the controllers' duplicate check maintains.
- The unique indexes are modelled by checking before the save. This stands in for the database raising code 11000 with `keyValue`; the message the controllers build from `keyValue` is reproduced.
- Some of the database's String casts are not modelled. A number or boolean assigned to a String path fails the cast in this model, where the database would store its string form.
- Cast-error messages do not quote the value that failed to cast.
- `Schema.NoteCast`: a second failing assignment to the same path is not modelled. Each document built here assigns each path at most once.
- Database failures other than a failed cast are not modelled. These are queries that throw, answered with 500 by the room and guest handlers and passed on by the booking handlers.
- The loaded document that `update*` changes field by field is modelled as a document value updated one assignment at a time. The store itself is the `Database` object that the methods modify.
