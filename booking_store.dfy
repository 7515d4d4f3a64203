/** db/booking_store.go: the bookings collection. */
module BookingStore {
  import opened Wrappers
  import opened ObjectIds
  import opened GoTime
  import opened Bson
  import opened Mongo
  import opened BookingTypes

  function BookingKey(b: Booking): ObjectId {
    b.id
  }

  lemma BookingById(b: Booking, id: ObjectId)
    ensures Matches(BookingDoc(b), ById(id)) <==> BookingKey(b) == id
  {
    ByIdMatches(BookingDoc(b), id);
  }

  /** The filter of IsRoomAvailable: the room, overlapping dates, not canceled. */
  function AvailabilityFilter(roomId: ObjectId, from: Time, till: Time): Filter {
    map[
      "roomID" := Eq(Oid(roomId)),
      "fromDate" := Lt(Date(till)),
      "tillDate" := Gt(Date(from)),
      "canceled" := Eq(Bool(false))]
  }

  /** An active booking of the room whose stay overlaps [from, till). */
  predicate BlocksActive(b: Booking, roomId: ObjectId, from: Time, till: Time) {
    b.roomId == roomId && b.fromDate < till && b.tillDate > from && !b.canceled
  }

  lemma AvailabilityFilterMatches(b: Booking, roomId: ObjectId, from: Time, till: Time)
    ensures Matches(BookingDoc(b), AvailabilityFilter(roomId, from, till)) <==> BlocksActive(b, roomId, from, till)
  {
    var d, f := BookingDoc(b), AvailabilityFilter(roomId, from, till);
    assert Holds(f["roomID"], Field(d, "roomID")) <==> b.roomId == roomId;
    assert Holds(f["fromDate"], Field(d, "fromDate")) <==> b.fromDate < till;
    assert Holds(f["tillDate"], Field(d, "tillDate")) <==> b.tillDate > from;
    assert Holds(f["canceled"], Field(d, "canceled")) <==> !b.canceled;
  }

  class MongoBookingStore {
    /** The collection, in natural order. */
    var bookings: seq<Booking>

    constructor ()
      ensures bookings == []
    {
      bookings := [];
    }

    /** The unique index on `_id`. */
    predicate Valid()
      reads this
    {
      DistinctKeys(bookings, BookingKey)
    }

    /** The room is free for [from, till) when no active booking of it overlaps. */
    function IsRoomAvailable(roomId: ObjectId, from: Time, till: Time): (ok: bool)
      reads this
      ensures ok <==> forall b :: b in bookings ==> !BlocksActive(b, roomId, from, till)
    {
      var f := AvailabilityFilter(roomId, from, till);
      assert forall b :: Matches(BookingDoc(b), f) <==> BlocksActive(b, roomId, from, till) by {
        forall b ensures Matches(BookingDoc(b), f) <==> BlocksActive(b, roomId, from, till) {
          AvailabilityFilterMatches(b, roomId, from, till);
        }
      }
      CountDocuments(bookings, BookingDoc, f) == 0
    }

    /**
     * UpdateByID with `$set: update`: a malformed id is an error and
     * changes nothing; otherwise the booking with that id, if any, takes
     * the fields `update` names and every other booking is unchanged.
     */
    method UpdateBooking(id: string, update: Doc) returns (err: Option<DbError>)
      requires Valid()
      modifies this
      ensures Valid()
      ensures ObjectIdFromHex(id).None? ==> err == Some(ParseObjectId(id).error) && bookings == old(bookings)
      ensures ObjectIdFromHex(id).Some? ==> err.None? && |bookings| == |old(bookings)|
      ensures ObjectIdFromHex(id).Some? ==> forall i :: 0 <= i < |bookings| ==>
        bookings[i] == if old(bookings)[i].id == ObjectIdFromHex(id).value
                       then SetBooking(old(bookings)[i], update) else old(bookings)[i]
    {
      match ObjectIdFromHex(id)
      case None =>
        err := Some(ParseObjectId(id).error);
      case Some(oid) =>
        var apply := (b: Booking) => SetBooking(b, update);
        forall b ensures Matches(BookingDoc(b), ById(oid)) <==> BookingKey(b) == oid {
          BookingById(b, oid);
        }
        UpdateOneByKey(bookings, BookingDoc, BookingKey, oid, ById(oid), apply);
        UpdateOneKeepsKeys(bookings, BookingDoc, BookingKey, ById(oid), apply);
        bookings := UpdateOne(bookings, BookingDoc, ById(oid), apply);
        err := None;
    }

    /** FindOne by id: a malformed id or no booking with that id is an error. */
    function GetBookingByID(id: string): (r: Result<Booking, DbError>)
      reads this
      ensures ObjectIdFromHex(id).None? ==> r == Failure(ParseObjectId(id).error)
      ensures ObjectIdFromHex(id).Some? ==>
        (r.Success? <==> HasKey(bookings, BookingKey, ObjectIdFromHex(id).value))
      ensures r.Success? ==> r.value in bookings && r.value.id == ObjectIdFromHex(id).value
      ensures r.Failure? && ObjectIdFromHex(id).Some? ==> r.error == NoDocuments
    {
      match ObjectIdFromHex(id)
      case None => Failure(ParseObjectId(id).error)
      case Some(oid) =>
        assert forall b :: Matches(BookingDoc(b), ById(oid)) <==> b.id == oid by {
          forall b ensures Matches(BookingDoc(b), ById(oid)) <==> b.id == oid {
            BookingById(b, oid);
          }
        }
        assert forall i :: 0 <= i < |bookings| ==> bookings[i] in bookings;
        FindOne(bookings, BookingDoc, ById(oid))
    }

    /** Find + All: exactly the bookings matching `filter`; the empty filter gives all. */
    function GetBookings(filter: Filter): (r: seq<Booking>)
      reads this
      ensures |r| <= |bookings|
      ensures forall b :: b in r <==> b in bookings && Matches(BookingDoc(b), filter)
      ensures filter == map[] ==> r == bookings
    {
      FindAll(bookings, BookingDoc);
      Find(bookings, BookingDoc, filter)
    }

    /**
     * InsertOne: the booking is stored under its own id, or the generated
     * one when it has none, and returned with that id; an id already
     * taken is a duplicate-key error and stores nothing.
     */
    method InsertBooking(b: Booking, generated: ObjectId) returns (r: Result<Booking, DbError>)
      requires Valid()
      modifies this
      ensures Valid()
      ensures var id := InsertedId(b.id, generated);
        if HasKey(old(bookings), BookingKey, id)
        then r == Failure(DuplicateKey(id)) && bookings == old(bookings)
        else r == Success(b.(id := id)) && bookings == old(bookings) + [b.(id := id)]
    {
      var id := InsertedId(b.id, generated);
      if HasKey(bookings, BookingKey, id) {
        r := Failure(DuplicateKey(id));
      } else {
        var stored := b.(id := id);
        AppendFreshKey(bookings, BookingKey, stored);
        bookings := bookings + [stored];
        r := Success(stored);
      }
    }
  }
}
