/**
 * api/room_handler.go: booking a room. The availability check of the
 * handler counts every booking of the room whose dates overlap the
 * request, canceled ones included; a sequence of bookings made through
 * it never holds two overlapping stays of one room.
 */
module RoomHandler {
  import opened Wrappers
  import opened ObjectIds
  import opened GoTime
  import opened Bson
  import opened Mongo
  import opened BookingTypes
  import opened RoomTypes
  import opened UserTypes
  import opened BookingStore
  import opened RoomStore
  import opened Http

  datatype BookRoomParams = BookRoomParams(fromDate: Time, tillDate: Time, numPersons: int)

  const DatesEmpty: string := "dates cannot be empty"
  const InPast: string := "cannot book a room in the past"
  const NoUserInContext: string := "internal server error (user not found in context)"

  /**
   * BookRoomParams.validate at time `now`: both dates must be set and
   * neither may lie before `now`; the order of the two dates is not checked.
   */
  function Validate(p: BookRoomParams, now: Time): (r: Option<string>)
    ensures r == Some(DatesEmpty) <==> IsZero(p.fromDate) || IsZero(p.tillDate)
    ensures r == Some(InPast) <==>
      !IsZero(p.fromDate) && !IsZero(p.tillDate) && (now > p.fromDate || now > p.tillDate)
    ensures r.None? <==>
      !IsZero(p.fromDate) && !IsZero(p.tillDate) && now <= p.fromDate && now <= p.tillDate
  {
    if IsZero(p.fromDate) || IsZero(p.tillDate) then Some(DatesEmpty)
    else if After(now, p.fromDate) || After(now, p.tillDate) then Some(InPast)
    else None
  }

  /** A stay starting or ending exactly at `now` is not in the past. */
  lemma ValidateAcceptsNow(p: BookRoomParams, now: Time)
    requires !IsZero(now) && p.fromDate == now && p.tillDate == now
    ensures Validate(p, now).None?
  {
  }

  /** Every set stay that ends before it starts, and not before `now`, passes validation. */
  lemma ValidateAllowsReversedDates(p: BookRoomParams, now: Time)
    requires !IsZero(p.fromDate) && !IsZero(p.tillDate)
    requires now <= p.tillDate < p.fromDate
    ensures Validate(p, now).None?
  {
  }

  /** The filter of isRoomAvailableForBooking: the room and overlapping dates only. */
  function OverlapFilter(roomId: ObjectId, p: BookRoomParams): Filter {
    map[
      "roomID" := Eq(Oid(roomId)),
      "fromDate" := Lt(Date(p.tillDate)),
      "tillDate" := Gt(Date(p.fromDate))]
  }

  /** A stored booking of the room whose stay overlaps the requested one, canceled or not. */
  predicate Conflicts(b: Booking, roomId: ObjectId, p: BookRoomParams) {
    b.roomId == roomId && b.fromDate < p.tillDate && b.tillDate > p.fromDate
  }

  lemma OverlapFilterMatches(b: Booking, roomId: ObjectId, p: BookRoomParams)
    ensures Matches(BookingDoc(b), OverlapFilter(roomId, p)) <==> Conflicts(b, roomId, p)
  {
    var d, f := BookingDoc(b), OverlapFilter(roomId, p);
    assert Holds(f["roomID"], Field(d, "roomID")) <==> b.roomId == roomId;
    assert Holds(f["fromDate"], Field(d, "fromDate")) <==> b.fromDate < p.tillDate;
    assert Holds(f["tillDate"], Field(d, "tillDate")) <==> b.tillDate > p.fromDate;
  }

  /** Back-to-back stays do not conflict: one may start the instant the other ends. */
  lemma BackToBackNoConflict(b: Booking, roomId: ObjectId, p: BookRoomParams)
    requires b.tillDate == p.fromDate || b.fromDate == p.tillDate
    requires b.fromDate <= b.tillDate && p.fromDate <= p.tillDate
    ensures !Conflicts(b, roomId, p)
  {
  }

  /** isRoomAvailableForBooking: true exactly when no stored booking conflicts. */
  function IsRoomAvailableForBooking(store: MongoBookingStore, roomId: ObjectId, p: BookRoomParams): (ok: bool)
    reads store
    ensures ok <==> forall b :: b in store.bookings ==> !Conflicts(b, roomId, p)
  {
    var found := store.GetBookings(OverlapFilter(roomId, p));
    assert forall b :: b in found <==> b in store.bookings && Conflicts(b, roomId, p) by {
      forall b ensures Matches(BookingDoc(b), OverlapFilter(roomId, p)) <==> Conflicts(b, roomId, p) {
        OverlapFilterMatches(b, roomId, p);
      }
    }
    assert found != [] ==> found[0] in found;
    |found| == 0
  }

  /**
   * The handler's check is stricter than the store's IsRoomAvailable:
   * whenever it finds the room free, so does the store.
   */
  lemma HandlerCheckImpliesStoreCheck(store: MongoBookingStore, roomId: ObjectId, p: BookRoomParams)
    ensures IsRoomAvailableForBooking(store, roomId, p) ==> store.IsRoomAvailable(roomId, p.fromDate, p.tillDate)
  {
    if IsRoomAvailableForBooking(store, roomId, p) {
      forall b | b in store.bookings ensures !BlocksActive(b, roomId, p.fromDate, p.tillDate) {
        assert !Conflicts(b, roomId, p);
      }
    }
  }

  /**
   * And strictly so: a canceled booking over the requested dates blocks
   * the handler although the store's check finds the room free.
   */
  lemma CanceledBookingBlocksHandlerOnly(store: MongoBookingStore, b: Booking, p: BookRoomParams)
    requires store.bookings == [b] && b.canceled && Conflicts(b, b.roomId, p)
    ensures !IsRoomAvailableForBooking(store, b.roomId, p)
    ensures store.IsRoomAvailable(b.roomId, p.fromDate, p.tillDate)
  {
    assert b in store.bookings;
  }

  /** Two bookings of one room whose stays overlap. */
  predicate Overlap(a: Booking, b: Booking) {
    a.roomId == b.roomId && a.fromDate < b.tillDate && a.tillDate > b.fromDate
  }

  lemma OverlapSymmetric(a: Booking, b: Booking)
    ensures Overlap(a, b) <==> Overlap(b, a)
  {
  }

  /** No two stored bookings of one room overlap. */
  predicate NoOverlap(bs: seq<Booking>) {
    forall i, j :: 0 <= i < j < |bs| ==> !Overlap(bs[i], bs[j])
  }

  /** Appending a booking that overlaps none of the stored ones keeps NoOverlap. */
  lemma {:induction false} AppendKeepsNoOverlap(bs: seq<Booking>, b: Booking)
    requires NoOverlap(bs)
    requires forall x :: x in bs ==> !Overlap(x, b)
    ensures NoOverlap(bs + [b])
  {
    forall i, j | 0 <= i < j < |bs| + 1
      ensures !Overlap((bs + [b])[i], (bs + [b])[j])
    {
      if j == |bs| {
        assert (bs + [b])[i] == bs[i] && bs[i] in bs;
      } else {
        assert (bs + [b])[i] == bs[i] && (bs + [b])[j] == bs[j];
      }
    }
  }

  /** Canceling bookings changes no stay, so it keeps NoOverlap. */
  lemma CancelKeepsNoOverlap(bs: seq<Booking>, cs: seq<Booking>)
    requires NoOverlap(bs) && |cs| == |bs|
    requires forall i :: 0 <= i < |bs| ==> cs[i] == bs[i] || cs[i] == bs[i].(canceled := true)
    ensures NoOverlap(cs)
  {
  }

  /** The booking HandleBookRoom stores, before the store gives it an id. */
  function NewBooking(user: User, roomId: ObjectId, p: BookRoomParams): (b: Booking)
    ensures b.id == NilObjectId && !b.canceled
    ensures b.userId == user.id && b.roomId == roomId
    ensures b.fromDate == p.fromDate && b.tillDate == p.tillDate && b.numPersons == p.numPersons
  {
    Booking(NilObjectId, user.id, roomId, p.numPersons, p.fromDate, p.tillDate, false)
  }

  /**
   * POST /room/:id/book. `body` is the bound request body (or the
   * binder's error), `user` the context user, `generated` the id the
   * driver would give the new booking.
   */
  method HandleBookRoom(store: MongoBookingStore, body: Result<BookRoomParams, string>, idParam: string,
                        user: Option<User>, now: Time, generated: ObjectId) returns (resp: Response)
    requires store.Valid() && NoOverlap(store.bookings)
    modifies store
    ensures store.Valid() && NoOverlap(store.bookings)
    ensures body.Failure? ==> resp == ErrorHandler(Plain(body.error))
    ensures body.Success? && Validate(body.value, now).Some? ==>
      resp == ErrorHandler(Plain(Validate(body.value, now).value))
    ensures body.Success? && Validate(body.value, now).None? && ObjectIdFromHex(idParam).None? ==>
      resp == ErrorHandler(Db(ParseObjectId(idParam).error))
    ensures body.Success? && Validate(body.value, now).None? && ObjectIdFromHex(idParam).Some? && user.None? ==>
      resp == Response(StatusInternalServerError, Strings(map["error" := NoUserInContext]))
    ensures body.Success? && Validate(body.value, now).None? && ObjectIdFromHex(idParam).Some? && user.Some? &&
            !old(IsRoomAvailableForBooking(store, ObjectIdFromHex(idParam).value, body.value)) ==>
      resp == Response(StatusBadRequest, Generic("error", "room " + idParam + " already booked"))
    ensures body.Success? && Validate(body.value, now).None? && ObjectIdFromHex(idParam).Some? && user.Some? &&
            old(IsRoomAvailableForBooking(store, ObjectIdFromHex(idParam).value, body.value)) ==>
      if HasKey(old(store.bookings), BookingKey, generated)
      then resp == ErrorHandler(Db(DuplicateKey(generated)))
      else resp.status == StatusOK && |store.bookings| == |old(store.bookings)| + 1
    ensures resp.status != StatusOK ==> store.bookings == old(store.bookings)
    ensures resp.status == StatusOK ==>
      body.Success? && user.Some? && ObjectIdFromHex(idParam).Some? && resp.body.BookingJson? &&
      var b := resp.body.booking;
      store.bookings == old(store.bookings) + [b] && b.id == generated &&
      b == NewBooking(user.value, ObjectIdFromHex(idParam).value, body.value).(id := b.id) &&
      forall x :: x in old(store.bookings) ==> !Overlap(x, b)
  {
    if body.Failure? {
      return ErrorHandler(Plain(body.error));
    }
    var p := body.value;
    var invalid := Validate(p, now);
    if invalid.Some? {
      return ErrorHandler(Plain(invalid.value));
    }
    var parsed := ObjectIdFromHex(idParam);
    if parsed.None? {
      return ErrorHandler(Db(ParseObjectId(idParam).error));
    }
    var roomId := parsed.value;
    if user.None? {
      return Response(StatusInternalServerError, Strings(map["error" := NoUserInContext]));
    }
    if !IsRoomAvailableForBooking(store, roomId, p) {
      return Response(StatusBadRequest, Generic("error", "room " + idParam + " already booked"));
    }
    var booking := NewBooking(user.value, roomId, p);
    ghost var before := store.bookings;
    var inserted := store.InsertBooking(booking, generated);
    match inserted
    case Failure(e) =>
      resp := ErrorHandler(Db(e));
    case Success(b) =>
      assert forall x :: x in before ==> !Overlap(x, b) by {
        forall x | x in before ensures !Overlap(x, b) {
          assert !Conflicts(x, roomId, p);
        }
      }
      AppendKeepsNoOverlap(before, b);
      resp := Ok(BookingJson(b));
  }

  /** GET /room: every room; with none, the driver leaves the slice nil and the body is JSON null. */
  function HandleGetRooms(store: MongoRoomStore): (resp: Response)
    reads store
    ensures store.rooms == [] ==> resp == Ok(Null)
    ensures store.rooms != [] ==> resp == Ok(RoomList(store.rooms))
  {
    RoomsResponse(store.GetRooms(map[]))
  }
}
