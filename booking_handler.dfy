/**
 * api/booking_handler.go: reading and canceling bookings. A booking is
 * visible to its owner and to admins; only its owner may cancel it, and
 * cancelation moves it from active to canceled once and for all.
 */
module BookingHandler {
  import opened Wrappers
  import opened ObjectIds
  import opened Bson
  import opened Mongo
  import opened BookingTypes
  import opened UserTypes
  import opened BookingStore
  import opened RoomHandler
  import opened Json
  import opened Redis
  import opened Http

  const AlreadyCanceled: string := "booking already canceled"

  /** checkBookingOwner: the context user must own the booking or be an admin. */
  function CheckBookingOwner(user: Option<User>, b: Booking): (r: Option<ApiError>)
    ensures r.None? <==> user.Some? && (b.userId == user.value.id || user.value.isAdmin)
    ensures r.Some? ==> r.value == Unauthorized
  {
    match user
    case None => Some(Unauthorized)
    case Some(u) => if b.userId != u.id && !u.isAdmin then Some(Unauthorized) else None
  }

  /** The filter {"userID": userId}. */
  function ByUser(userId: ObjectId): Filter {
    map["userID" := Eq(Oid(userId))]
  }

  lemma ByUserMatches(b: Booking, userId: ObjectId)
    ensures Matches(BookingDoc(b), ByUser(userId)) <==> b.userId == userId
  {
    assert "userID" in ByUser(userId);
  }

  /** GET /booking: the context user's own bookings, as a list even when there are none. */
  function HandleGetMyBookings(store: MongoBookingStore, user: Option<User>): (resp: Response)
    reads store
    ensures user.None? ==> resp == ErrorHandler(Api(Unauthorized))
    ensures user.Some? ==> resp.status == StatusOK && resp.body.BookingList?
    ensures user.Some? ==>
      forall b :: b in resp.body.bookings <==> b in store.bookings && b.userId == user.value.id
  {
    match user
    case None => ErrorHandler(Api(Unauthorized))
    case Some(u) =>
      var bookings := store.GetBookings(ByUser(u.id));
      assert forall b :: b in bookings <==> b in store.bookings && b.userId == u.id by {
        forall b ensures Matches(BookingDoc(b), ByUser(u.id)) <==> b.userId == u.id {
          ByUserMatches(b, u.id);
        }
      }
      if |bookings| == 0 then Ok(BookingList([])) else Ok(BookingList(bookings))
  }

  /**
   * GET /admin/booking: every booking. With no bookings the driver leaves
   * the slice nil and the body is JSON null.
   */
  function HandleGetBookings(store: MongoBookingStore): (resp: Response)
    reads store
    ensures resp.status == StatusOK
    ensures store.bookings == [] ==> resp.body == Null
    ensures store.bookings != [] ==> resp.body == BookingList(store.bookings)
  {
    var bookings := store.GetBookings(map[]);
    if |bookings| == 0 then Ok(Null) else Ok(BookingList(bookings))
  }

  /**
   * POST /booking/:id/cancel. The booking is looked up before the user is
   * checked; only the owner may cancel, and only an active booking.
   */
  method HandleCancelBooking(store: MongoBookingStore, id: string, user: Option<User>) returns (resp: Response)
    requires store.Valid()
    modifies store
    ensures store.Valid()
    ensures old(store.GetBookingByID(id)).Failure? ==>
      resp == ErrorHandler(Api(ResourceNotFound("booking")))
    ensures old(store.GetBookingByID(id)).Success? && user.None? ==>
      resp == ErrorHandler(Api(Unauthorized))
    ensures old(store.GetBookingByID(id)).Success? && user.Some? &&
            old(store.GetBookingByID(id)).value.userId != user.value.id ==>
      resp == ErrorHandler(Api(Unauthorized))
    ensures old(store.GetBookingByID(id)).Success? && user.Some? &&
            old(store.GetBookingByID(id)).value.userId == user.value.id &&
            old(store.GetBookingByID(id)).value.canceled ==>
      resp == Response(StatusBadRequest, Generic("error", AlreadyCanceled))
    ensures old(store.GetBookingByID(id)).Success? && user.Some? &&
            old(store.GetBookingByID(id)).value.userId == user.value.id &&
            !old(store.GetBookingByID(id)).value.canceled ==>
      resp == Ok(Generic("msg", "updated"))
    ensures resp.status != StatusOK ==> store.bookings == old(store.bookings)
    ensures old(NoOverlap(store.bookings)) ==> NoOverlap(store.bookings)
    ensures resp.status == StatusOK ==>
      resp == Ok(Generic("msg", "updated")) &&
      user.Some? && old(store.GetBookingByID(id)).Success? &&
      var b := old(store.GetBookingByID(id)).value;
      b.userId == user.value.id && !b.canceled &&
      |store.bookings| == |old(store.bookings)| &&
      (forall i :: 0 <= i < |store.bookings| ==>
        store.bookings[i] == if old(store.bookings)[i].id == b.id
                             then old(store.bookings)[i].(canceled := true) else old(store.bookings)[i]) &&
      store.GetBookingByID(id) == Success(b.(canceled := true))
  {
    var found := store.GetBookingByID(id);
    if found.Failure? {
      return ErrorHandler(Api(ResourceNotFound("booking")));
    }
    var b := found.value;
    if user.None? || b.userId != user.value.id {
      return ErrorHandler(Api(Unauthorized));
    }
    if b.canceled {
      return Response(StatusBadRequest, Generic("error", AlreadyCanceled));
    }
    ghost var before := store.bookings;
    var update := map["canceled" := Bool(true)];
    var err := store.UpdateBooking(id, update);
    match err
    case Some(e) =>
      resp := ErrorHandler(Db(e));
    case None =>
      forall i | 0 <= i < |store.bookings| && before[i].id == b.id
        ensures store.bookings[i] == before[i].(canceled := true)
      {
        assert SetBooking(before[i], update) == before[i].(canceled := true);
      }
      CanceledIsFound(store, id, before, b);
      if NoOverlap(before) {
        CancelKeepsNoOverlap(before, store.bookings);
      }
      resp := Ok(Generic("msg", "updated"));
  }

  /** After the update, looking the booking up again finds it canceled. */
  lemma CanceledIsFound(store: MongoBookingStore, id: string, before: seq<Booking>, b: Booking)
    requires store.Valid() && ObjectIdFromHex(id).Some? && b.id == ObjectIdFromHex(id).value
    requires b in before && |store.bookings| == |before|
    requires forall i :: 0 <= i < |before| ==>
      store.bookings[i] == if before[i].id == b.id then before[i].(canceled := true) else before[i]
    requires forall i, j :: 0 <= i < j < |before| ==> before[i].id != before[j].id
    ensures store.GetBookingByID(id) == Success(b.(canceled := true))
  {
    var k :| 0 <= k < |before| && before[k] == b;
    assert store.bookings[k] == b.(canceled := true);
    assert HasKey(store.bookings, BookingKey, b.id);
    var r := store.GetBookingByID(id);
    var j :| 0 <= j < |store.bookings| && store.bookings[j] == r.value;
    assert before[j].id == b.id;
  }

  /**
   * GET /booking/:id. A cached booking is served after the owner check;
   * otherwise the store is read, the owner checked, and only then is the
   * booking cached under "booking-<id>".
   */
  method HandleGetBooking(store: MongoBookingStore, cache: RedisCacheStore, id: string, user: Option<User>)
    returns (resp: Response)
    modifies cache
    ensures resp.status == StatusOK ==>
      resp.body.BookingJson? && CheckBookingOwner(user, resp.body.booking).None?
    ensures old(UnmarshalBooking(cache.Get("booking-" + id))).Some? ==>
      cache.entries == old(cache.entries) &&
      var cached := old(UnmarshalBooking(cache.Get("booking-" + id))).value;
      if CheckBookingOwner(user, cached).None? then resp == Ok(BookingJson(cached))
      else resp == ErrorHandler(Api(Unauthorized))
    ensures old(UnmarshalBooking(cache.Get("booking-" + id))).None? ==>
      var found := store.GetBookingByID(id);
      if found.Failure? then
        resp == ErrorHandler(Api(ResourceNotFound("booking"))) && cache.entries == old(cache.entries)
      else if CheckBookingOwner(user, found.value).Some? then
        resp == ErrorHandler(Api(Unauthorized)) && cache.entries == old(cache.entries)
      else
        resp == Ok(BookingJson(found.value)) &&
        cache.entries == old(cache.entries)["booking-" + id := MarshalBooking(found.value)]
  {
    var key := "booking-" + id;
    var val := cache.Get(key);
    if val != Empty {
      match UnmarshalBooking(val)
      case Some(cached) =>
        var denied := CheckBookingOwner(user, cached);
        if denied.Some? {
          return ErrorHandler(Api(denied.value));
        }
        return Ok(BookingJson(cached));
      case None =>
    }
    var found := store.GetBookingByID(id);
    if found.Failure? {
      return ErrorHandler(Api(ResourceNotFound("booking")));
    }
    var denied := CheckBookingOwner(user, found.value);
    if denied.Some? {
      return ErrorHandler(Api(denied.value));
    }
    cache.Set(key, MarshalBooking(found.value));
    resp := Ok(BookingJson(found.value));
  }
}
