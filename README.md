# GoTel booking rules in Dafny

GoTel is a hotel reservation REST API in Go, built on Fiber, MongoDB and
Redis. This project models the rules inside its handlers and stores, and
proves them:

- booking a room, and the date-overlap test that refuses a booking;
- canceling a booking, and who may read or cancel one;
- the JWT middleware's public paths, token checks and four-hour expiry;
- the admin gate;
- registration, with its email-uniqueness check;
- the partial-update maps, validators and filters the handlers build;
- the link from a new room to its hotel.

How the model is built:

- **Stores.** Each MongoDB store (`MongoBookingStore`, `MongoHotelStore`,
  `MongoRoomStore`, `MongoUserStore`) is a class. Its collection is a
  `seq` field in natural (insertion) order.
  - Read operations are functions that read the object.
  - Write operations are methods whose `ensures` state the new collection.
  - `Valid()` is the unique `_id` index, and every write keeps it.
- **Queries.** Filters and documents are small BSON maps (module `Bson`),
  so each query's filter is modelled literally. Lemmas then state, in terms
  of entity fields, what each filter selects.
- **Cache.** The Redis cache is a class over a `map`. A missing key reads as
  the empty string.
- **Handlers.** Each handler takes the stores it uses as parameters and
  returns a `Response` (status and body).
  - Handlers that only read are functions; those that write are methods.
  - A returned error goes through `ErrorHandler`: a typed API error keeps
    its own status code, and any other error becomes a 500.
- **Environment inputs.** Time (`now`, Unix seconds), the JWT secret,
  generated ObjectIDs, and the result of request binding are parameters.
  So are the few driver failures whose handling the handlers make visible.
- **External libraries.** bcrypt, golang-jwt and encoding/json are
  symbolic datatypes:
  - a hash remembers its password;
  - a token remembers its method, claims and key;
  - a marshalled value remembers what it encodes.

  Each of them satisfies exactly the laws the code relies on.

Main results:

- `RoomHandler.HandleBookRoom` books every valid request for a free room
  and keeps `NoOverlap`: no two stored bookings of one room have
  overlapping stays.
- `RoomHandler.HandlerCheckImpliesStoreCheck` and
  `RoomHandler.CanceledBookingBlocksHandlerOnly`: the handler's availability
  check is strictly stricter than the store's.
- `BookingHandler.HandleCancelBooking` cancels the owner's active booking
  and makes cancelation final.
- `JwtMiddleware.JWTAuthentication` lets a request continue without a user
  exactly on the public paths.
- `JwtMiddleware.TokenLifetimeHolds`: a token issued at `t` is accepted at
  `t'` exactly when `t' <= t + 14400`.
- `UserHandler.HandlePostUser` keeps `UniqueEmails` when the lookup
  answers.
- `RoomStore.MongoRoomStore.InsertRoom` appends the room id at the end of
  its hotel's list, and keeps the room when linking fails.

The status codes of `types.ErrUnAuthorized`, `ErrResourceNotFound`,
`ErrBadRequest` and `ErrInvalidID` are taken to be 401, 404, 400 and 400.
The file that defines them is not part of this model.

## Model

| member | source | states |
|---|---|---|
| `ObjectIds.ObjectIdFromHex` | db/booking_store.go:59 | parsing succeeds exactly for 24 hex digits (either case), and yields their value |
| `ObjectIds.HexRoundTrip` | api/middleware/jwt.go:66-67 | parsing the hex form of an id gives back that id |
| `ObjectIds.DigitsValue` | api/middleware/jwt.go:66-67 | the hex digits of a value read back as that value (induction on length) |
| `ObjectIds.HexValueIgnoresCase` | db/booking_store.go:59 | hex digits that differ only in case are all hex digits and spell the same number (induction on length) |
| `ObjectIds.ParseIgnoresCase` | db/booking_store.go:59 | any two spellings that differ only in the case of their letters parse alike: to the same id, or both are refused |
| `ObjectIds.FirstNonHex` | db/booking_store.go:59 | the position found holds a non-hex character and every earlier one is a hex digit |
| `Bson.EmptyFilterMatchesAll` | api/room_handler.go:43 | the empty filter `bson.M{}` matches every document |
| `Mongo.Find` | db/booking_store.go:83-92 | the result holds exactly the stored entities that match the filter, and no more of them than are stored |
| `Mongo.FindAll` | api/booking_handler.go:102 | Find with the empty filter returns the whole collection, in order (induction) |
| `Mongo.FirstMatch` | db/booking_store.go:76 | the position found matches and no earlier entity does; none is found exactly when nothing matches |
| `Mongo.FindOne` | db/booking_store.go:76 | FindOne returns a matching stored entity, or ErrNoDocuments exactly when none matches |
| `Mongo.ParseObjectId` | db/booking_store.go:59-62 | parsing succeeds exactly when ObjectIdFromHex does, with its id; a length other than 24 is ErrInvalidHex; otherwise the error is the invalid-byte error of the first non-hex character |
| `Mongo.ParseObjectIdMessages` | api/room_handler.go:57-60 | the id "zzzzzzzzzzzzzzzzzzzzzzzz" is refused with "encoding/hex: invalid byte: U+007A 'z'", and "abc" with ErrInvalidHex's message |
| `Mongo.UpdateOne` | db/hotel_store.go:74 | only the first match is rewritten; with no match nothing changes |
| `Mongo.DeleteOne` | api/user_handler.go:62 | only the first match is removed and the others keep their order; with no match nothing changes |
| `Mongo.CountDocuments` | db/booking_store.go:50 | the count is zero exactly when no entity matches |
| `Mongo.ByIdMatches` | db/booking_store.go:76 | a document matches `{"_id": id}` exactly when its `_id` is `id` |
| `Mongo.InsertedId` | db/booking_store.go:99 | defines the driver's rule rather than proving it: InsertOne keeps an id the document has and otherwise uses the generated one |
| `Mongo.AppendFreshKey` | db/booking_store.go:95 | inserting an entity whose id is not yet stored keeps the ids distinct |
| `Mongo.UpdateOneByKey` | db/booking_store.go:66 | with distinct ids, an update by id rewrites exactly the entity with that id |
| `Mongo.FirstMatchByKey` | db/hotel_store.go:74 | with distinct ids, the first match of `{"_id": id}` is the entity with that id |
| `Mongo.DeleteOneByKey` | api/user_handler.go:62 | with distinct ids, deleting by id removes exactly the entity with that id and keeps the ids distinct |
| `Mongo.UpdateOneKeepsKeys` | db/booking_store.go:63-66 | an update that never changes `_id` keeps the ids distinct |
| `BookingTypes.SetBooking` | db/booking_store.go:63-65 | `$set` on a booking never changes its id |
| `BookingTypes.SetBookingFields` | db/booking_store.go:63-65 | every field `$set` names with a value of its kind takes that value; every other field keeps its own |
| `HotelTypes.SetHotel` | db/hotel_store.go:72-76 | `$set` on a hotel changes only the named fields and never its id or rooms |
| `RoomTypes.ByHotelMatches` | api/hotel_handler.go:50 | the filter `{"hotelID": id}` selects exactly the rooms of that hotel |
| `RoomTypes.Validate` | types/room.go:31-43 | "hotelId", "type" and "basePrice" are reported exactly when the hotel id is empty, the type is shorter than 2, or the price is not positive; no other key; the map is empty exactly when all three hold |
| `UserTypes.GenerateFromPassword` | types/user.go:36 | hashing succeeds exactly up to 72 characters (bytes in Go, see Left out); the hash accepts its own password and refuses every other |
| `UserTypes.HashPassword` | types/user.go:64-70 | the hash, at the default cost, validates against its password |
| `UserTypes.SetUser` | api/user_handler.go:41-42 | `$set` on a user never changes its id or password hash |
| `UserTypes.ValidateCreateUserParams` | types/user.go:14-19 | a field is reported exactly when its tag rules fail; the parameters are accepted exactly with names of 2 to 50 characters, a well-formed email and a password of at least 7 |
| `UserTypes.NewUserFromParams` | types/user.go:35-47 | the user copies the names and email, has no id, is not an admin, is created at `now`, and stores a bcrypt hash (cost 12) that validates against the password; it fails only when bcrypt refuses |
| `UserTypes.ToBSON` | types/user.go:54-63 | "firstName" and "lastName" are present exactly when given, with the given values; no other key; empty parameters give the empty map |
| `UserTypes.UpdateChangesOnlyGivenNames` | types/user.go:54-63 | applied as `$set`, the map changes the given names and nothing else |
| `Json.MarshalBooking` | api/booking_handler.go:145 | a marshalled booking is never empty and unmarshals to itself |
| `Json.MarshalHotel` | api/hotel_handler.go:95 | a marshalled hotel is never empty and unmarshals to itself |
| `Json.MarshalRooms` | api/hotel_handler.go:55 | a marshalled room list is never empty and unmarshals to itself |
| `Json.MarshalPage` | api/hotel_handler.go:150 | a marshalled page is never empty and unmarshals to itself |
| `Jwt.SignedString` | api/auth_handler.go:87 | a signed token is never the empty header |
| `Jwt.Parse` | api/middleware/jwt.go:78-100 | defines golang-jwt's rule for the key function of validateToken rather than proving it: the claims come back exactly for a token signed by an HMAC method with the secret; its meaning is given by SignParseRoundTrip |
| `Jwt.SignParseRoundTrip` | api/middleware/jwt.go:79-86 | an HS256 token parses back to its claims under its own key |
| `Http.ErrorHandler` | api/errors.go:10-16 | a typed API error is answered with its own code and itself; any other error with 500 and its message |
| `Redis.RedisCacheStore.Get` | db/redis.go:29-37 | defines the go-redis read as the handlers see it rather than proving it: a stored key reads its value; a missing key reads as the empty string |
| `Redis.RedisCacheStore.Set` | db/redis.go:25-27 | the key holds the new value and every other key is unchanged |
| `BookingStore.AvailabilityFilterMatches` | db/booking_store.go:39-48 | the availability filter matches exactly the active bookings of the room that overlap the dates |
| `BookingStore.BookingById` | db/booking_store.go:76 | `{"_id": id}` selects exactly the booking with that id |
| `BookingStore.MongoBookingStore.constructor` | db/booking_store.go:26-37 | a new store is empty |
| `BookingStore.MongoBookingStore.IsRoomAvailable` | db/booking_store.go:38-57 | the room is available exactly when no stored booking has that room, `fromDate < till`, `tillDate > from` and is not canceled |
| `BookingStore.MongoBookingStore.UpdateBooking` | db/booking_store.go:58-68 | a malformed id is the driver's parse error (ErrInvalidHex for a length other than 24, else the invalid-byte error of the first non-hex character) and changes nothing; otherwise the booking with that id takes the `$set` fields and all others are unchanged; a missing id is not an error |
| `BookingStore.MongoBookingStore.GetBookingByID` | db/booking_store.go:70-81 | a malformed id is the driver's parse error (ErrInvalidHex for a length other than 24, else the invalid-byte error of the first non-hex character); otherwise it succeeds exactly when a booking has that id, and returns that booking |
| `BookingStore.MongoBookingStore.GetBookings` | db/booking_store.go:82-93 | exactly the stored bookings matching the filter; the empty filter gives all |
| `BookingStore.MongoBookingStore.InsertBooking` | db/booking_store.go:94-102 | one booking is appended, with the generated id when it had none, and returned with that id; a taken id is a duplicate-key error |
| `HotelStore.HotelById` | db/hotel_store.go:52 | `{"_id": id}` selects exactly the hotel with that id |
| `HotelStore.PushRoom` | db/hotel_store.go:38 | `$push` puts the room id at the end of the rooms and changes nothing else |
| `HotelStore.MongoHotelStore.constructor` | db/hotel_store.go:27-34 | a new store is empty |
| `HotelStore.MongoHotelStore.UpdateHotelsRooms` | db/hotel_store.go:35-42 | the hotel with that id gets the room id appended and every other hotel is unchanged; a driver failure changes nothing |
| `HotelStore.MongoHotelStore.GetHotelByID` | db/hotel_store.go:43-58 | a malformed id is the driver's parse error (ErrInvalidHex for a length other than 24, else the invalid-byte error of the first non-hex character); otherwise it succeeds exactly when a hotel has that id |
| `HotelStore.MongoHotelStore.GetHotels` | db/hotel_store.go:60-71 | exactly the hotels matching the filter; the pagination argument plays no part |
| `HotelStore.MongoHotelStore.UpdateHotel` | db/hotel_store.go:72-76 | only the first hotel matching the filter takes the `$set` fields; with no match nothing changes |
| `HotelStore.MongoHotelStore.InsertHotel` | db/hotel_store.go:78-85 | one hotel is appended and returned with its generated id; a taken id is a duplicate-key error |
| `RoomStore.MongoRoomStore.constructor` | db/room_store.go:25-36 | a new store is empty and links through the given hotel store |
| `RoomStore.MongoRoomStore.GetRooms` | db/room_store.go:37-47 | exactly the rooms matching the filter; the empty filter gives all |
| `RoomStore.MongoRoomStore.InsertRoom` | db/room_store.go:48-61 | the room is stored with its id, which becomes the last element of its hotel's rooms; with no such hotel no hotel changes; a failed link is reported and the room stays stored |
| `UserStore.UserById` | api/user_handler.go:121 | `{"_id": id}` selects exactly the user with that id |
| `UserStore.ByEmailMatches` | api/user_handler.go:87 | `{"email": e}` selects exactly the users with that email |
| `UserStore.MongoUserStore.GetUserByEmail` | api/user_handler.go:87 | without a driver failure, it succeeds exactly when a user has the email, and returns such a user; otherwise ErrNoDocuments |
| `UserStore.MongoUserStore.GetUserByID` | api/middleware/jwt.go:67 | a malformed id is the driver's parse error; otherwise it succeeds exactly when a user has that id, and returns that user |
| `UserStore.MongoUserStore.GetUsers` | api/user_handler.go:143 | every stored user, in order |
| `UserStore.MongoUserStore.InsertUser` | api/user_handler.go:98 | one user is appended and returned with its generated id; a taken id is a duplicate-key error |
| `UserStore.MongoUserStore.UpdateUser` | api/user_handler.go:42 | the user with that id takes the given names; nobody else changes; a malformed id is the driver's parse error |
| `UserStore.MongoUserStore.DeleteUser` | api/user_handler.go:62 | the user with that id is removed and nobody else; a malformed id or a driver failure removes nothing |
| `RoomHandler.Validate` | api/room_handler.go:22-31 | "dates cannot be empty" exactly when a date is zero; "cannot book a room in the past" exactly when `now` is after either date; accepted otherwise, with no ordering between the dates |
| `RoomHandler.ValidateAcceptsNow` | api/room_handler.go:27 | a stay starting and ending at `now` is not in the past |
| `RoomHandler.ValidateAllowsReversedDates` | api/room_handler.go:22-31 | every stay with both dates set that ends before it starts, and not before `now`, passes validation |
| `RoomHandler.OverlapFilterMatches` | api/room_handler.go:101-109 | the handler's filter matches exactly the bookings of the room with `fromDate < TillDate` and `tillDate > FromDate`, canceled or not |
| `RoomHandler.BackToBackNoConflict` | api/room_handler.go:104-107 | a stay starting when another ends does not conflict with it |
| `RoomHandler.IsRoomAvailableForBooking` | api/room_handler.go:99-120 | true exactly when no stored booking conflicts, canceled ones included |
| `RoomHandler.HandlerCheckImpliesStoreCheck` | db/booking_store.go:39-48 | whenever the handler finds the room free, the store's IsRoomAvailable does too |
| `RoomHandler.CanceledBookingBlocksHandlerOnly` | api/room_handler.go:101-109 | a canceled booking over the dates blocks the handler while the store finds the room free |
| `RoomHandler.OverlapSymmetric` | api/room_handler.go:101-109 | the overlap relation is symmetric |
| `RoomHandler.AppendKeepsNoOverlap` | api/room_handler.go:74-92 | appending a booking that overlaps none of the stored ones keeps NoOverlap (by cases on the new pair) |
| `RoomHandler.CancelKeepsNoOverlap` | api/booking_handler.go:83 | setting `canceled` on any bookings changes no stay, so NoOverlap is kept |
| `RoomHandler.NewBooking` | api/room_handler.go:84-90 | the new booking has the context user, the path's room, the request's dates and guests, no id, and is not canceled |
| `RoomHandler.HandleBookRoom` | api/room_handler.go:49-97 | each failure in order (binding, validation, id, user, availability) gets its response and stores nothing, a malformed room id answering 500 with the driver's parse message; a valid request for a free room is booked with 200, adding exactly one booking, unless the generated id is taken; a booking added has the generated id, is built from the request, overlaps no stored booking, and NoOverlap is kept |
| `RoomHandler.HandleGetRooms` | api/room_handler.go:42-48 | every stored room, and JSON null when there are none |
| `BookingHandler.CheckBookingOwner` | api/booking_handler.go:152-162 | access is allowed exactly when a context user exists and owns the booking or is an admin |
| `BookingHandler.ByUserMatches` | api/booking_handler.go:40 | `{"userID": id}` selects exactly that user's bookings |
| `BookingHandler.HandleGetMyBookings` | api/booking_handler.go:34-52 | unauthorized without a user; otherwise a list, never null, of exactly that user's bookings |
| `BookingHandler.HandleGetBookings` | api/booking_handler.go:101-109 | every booking, with a null body when there are none |
| `BookingHandler.HandleCancelBooking` | api/booking_handler.go:64-90 | not-found before any user check; only the owner passes; an already canceled booking gets 400 and nothing is written; the owner's active booking is canceled with 200, setting only `canceled` on that booking, so a second cancel is refused; NoOverlap is kept |
| `BookingHandler.CanceledIsFound` | api/booking_handler.go:83-85 | after the update, the booking is found again canceled |
| `BookingHandler.HandleGetBooking` | api/booking_handler.go:121-150 | a 200 always passed the owner check, on the cache path and the store path; the cache is written only on the store path, after the check |
| `AuthHandler.TokenClaims` | api/auth_handler.go:81-85 | the claims are exactly `id` (the hex id), `email` and `expires` = issue time + 14400 |
| `AuthHandler.CreateTokenFromUser` | api/auth_handler.go:77-96 | the token is non-empty and parses under the secret to those claims |
| `AuthHandler.HandleAuthenticate` | api/auth_handler.go:43-68 | an unknown email and a wrong password get the same 400 "invalid credentials"; other store errors pass through; a 200 carries the stored user whose password matches, and that user's token |
| `AuthHandler.LoginNeedsThePassword` | api/auth_handler.go:57-61 | the stored password logs in and any other password gets "invalid credentials" |
| `JwtMiddleware.SwaggerPrefixSubsumed` | api/middleware/jwt.go:36-42 | a path with the "/swagger" prefix already contains "/swagger" |
| `JwtMiddleware.SkipsWithoutPrefixTest` | api/middleware/jwt.go:26-42 | the skip rules are the same without the prefix test |
| `JwtMiddleware.UserPathSkippedOnlyOnPost` | api/middleware/jwt.go:32-34 | on a "/user" path that is not otherwise public, only OPTIONS and POST pass without a token |
| `JwtMiddleware.RegistrationPathIsPublic` | api/middleware/jwt.go:32-34 | POST /api/v1/user needs no token |
| `JwtMiddleware.JWTAuthentication` | api/middleware/jwt.go:16-76 | a request continues with no user exactly on public paths; a missing or invalid token is unauthorized; "token expired" exactly when `now > expires`; for an unexpired token the id's user lookup decides: a stored user is put in context, a failed lookup is unauthorized; it panics exactly when `expires` is not a number, or when an unexpired token's `id` is not a string |
| `JwtMiddleware.TokenLifetimeHolds` | api/middleware/jwt.go:59-74 | a token issued at `t` to a stored user is accepted at `t'` exactly when `t' <= t + 14400`, with that user in context; it is refused as expired afterwards and never panics |
| `Admin.AdminAuth` | api/admin.go:9-19 | continue exactly when a context user exists and is an admin; otherwise unauthorized |
| `Admin.AdminAuthOnlyReadsFlag` | api/admin.go:14 | two users with the same admin flag get the same answer |
| `Admin.AdminReadsAnyBooking` | api/booking_handler.go:157 | a user who passes the admin gate may read any booking |
| `UserHandler.HandlePostUser` | api/user_handler.go:79-103 | validation errors give 400 and insert nothing; a known email gives 400 "email already exists"; a lookup failure counts as a free email; a success appends one user built from the request; UniqueEmails is kept when the lookup answers |
| `UserHandler.HandleGetUser` | api/user_handler.go:116-130 | the user with that id, or a 200 `{"error": "not found"}` when there is none |
| `UserHandler.HandleGetUsers` | api/user_handler.go:142-148 | every stored user |
| `UserHandler.HandleDeleteUser` | api/user_handler.go:59-67 | any store failure is a bad request; a success removes that user and echoes the id |
| `UserHandler.HandlePutUser` | api/user_handler.go:34-47 | an unreadable body is a bad request; a store error, such as the id's parse error, is a 400 with its message; a success sets only the given names on that user and keeps emails unique |
| `UserHandler.EmailsKept` | api/user_handler.go:41-42 | an update that cannot touch `email` keeps emails unique |
| `HotelHandler.UpdateData` | api/hotel_handler.go:212-218 | "name" and "location" are present exactly when non-empty, with those values, and nothing else |
| `HotelHandler.UpdateDataChangesOnlyGivenFields` | api/hotel_handler.go:212-227 | applied as `$set`, the map changes the given name and location and nothing else |
| `HotelHandler.RatingFilter` | api/hotel_handler.go:133-136 | "rating" is in the filter exactly when the rating is positive |
| `HotelHandler.RatingFilterSelects` | api/hotel_handler.go:133-138 | the filter selects every hotel for a rating of 0 or less, else the hotels with that rating |
| `HotelHandler.HandleGetHotels` | api/hotel_handler.go:118-155 | a cached page is served as it is; otherwise `page` is the requested page and the data is null exactly when no hotel has the rating, else exactly the hotels with the rating, `results` being their number; the cache is only read |
| `HotelHandler.HandleGetHotel` | api/hotel_handler.go:74-102 | a cached hotel is served; otherwise not-found, or the stored hotel, which is then cached under "hotel-<id>" |
| `HotelHandler.HandleGetRooms` | api/hotel_handler.go:34-61 | the cache is read before the id is parsed; otherwise a malformed id is invalid; else exactly the hotel's rooms, JSON null when there are none, which are then cached |
| `HotelHandler.HandlePostHotel` | api/hotel_handler.go:167-190 | validation errors give 400; valid input is inserted with 200, adding exactly one hotel, unless the generated id is taken; the new hotel has the generated id, the given name and location, rating 0 and no rooms |
| `HotelHandler.HandlePutHotel` | api/hotel_handler.go:204-234 | a malformed id is invalid and changes nothing; otherwise only the hotel with that id takes the non-empty fields; the cache is not touched |

## Left out

- **Driver failures.** Network and server failures of MongoDB and Redis are
  modelled only where a handler treats them specially: the email lookup,
  user deletion, and the room-to-hotel link. Elsewhere the error paths on a
  driver failure (`ErrResourceNotFound("bookings")`, `"hotels"`, `"rooms"`,
  `"user"`, and the returned `err`) are not modelled, and Redis GET errors
  are not either.
- **The user store.** Its Go implementation is not part of this model.
  `MongoUserStore` assumes it behaves like the other stores: it parses the
  hex id, reads with FindOne, and updates with `$set`.
- **Error codes.** The `types.Error` constructors are not part of this
  model, so their codes (401, 404, 400, 400) are assumed.
- `CreateHotelParams.Validate`: not part of this model; its result is an
  input of `HandlePostHotel`.
- Mongo.ParseObjectId: counts the id's length in characters, where Go
  counts bytes, so a 24-character id holding a non-ASCII character gets the
  invalid-byte error here and ErrInvalidHex in Go; and `%#U` quotes only
  printable ASCII characters here.
- **Validation.** The go-playground email-syntax check is an input
  (`emailSyntaxOk`). The `min`/`max` tags count runes, as the model does.
- RoomTypes.Validate: counts the room type's length in characters, where
  `len(p.Type)` counts bytes, so a one-character non-ASCII type that Go
  accepts is refused here.
- UserTypes.GenerateFromPassword: counts the password's length in
  characters, where bcrypt's 72-byte limit counts bytes, so a password of
  at most 72 characters but more than 72 bytes is accepted here and
  refused by Go.
- **bcrypt.** The password hash is symbolic. bcrypt's silent truncation to
  72 bytes when comparing is not modelled, so passwords that differ only
  after byte 72 are distinct here.
- **Expiry claim.** The `expires` claim is an integer. JSON decoding makes
  it a float64, which is exact for any realistic Unix time.
- **BSON details.** `omitempty`, `$set` on `_id`, and `$set` with a value of
  another BSON kind are not modelled; the model keeps the old value in these
  cases, which the handlers never trigger. Nor is the string form of the
  `_id` filter in HandlePutUser, whose store-side conversion is not part of
  this model.
- **Aliasing and framework.** Returning the argument pointer from
  `InsertBooking`, `InsertHotel` and `InsertRoom` is modelled by returning
  the stored value. Fiber routing, CORS, swagger, environment lookup and
  logging are left out.
- **Empty listings.** `HandleGetBookings`, both `HandleGetRooms` and the
  data of `HandleGetHotels` assume that cursor.All leaves the slice nil
  when nothing matches, so they answer JSON null. `HandleGetMyBookings`
  replaces nil by an empty list itself.
- UserHandler.HandleGetUsers: the user store's source is not part of this
  model, so whether no users is written as null or as an empty list is not
  modelled; the list is returned as the store gives it.
- **Concurrency and Redis TTLs.** Neither is modelled; only sequential
  execution is covered.
