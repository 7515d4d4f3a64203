/** db/hotel_store.go: the hotels collection. */
module HotelStore {
  import opened Wrappers
  import opened ObjectIds
  import opened Bson
  import opened Mongo
  import opened HotelTypes

  /** db.Pagination, which GetHotels accepts and does not use. */
  datatype Pagination = Pagination(limit: int, page: int)

  function HotelKey(h: Hotel): ObjectId {
    h.id
  }

  lemma HotelById(h: Hotel, id: ObjectId)
    ensures Matches(HotelDoc(h), ById(id)) <==> HotelKey(h) == id
  {
    ByIdMatches(HotelDoc(h), id);
  }

  /** `$push: {"rooms": roomId}`: the room id goes to the end of the list. */
  function PushRoom(h: Hotel, roomId: ObjectId): (r: Hotel)
    ensures |r.rooms| == |h.rooms| + 1 && r.rooms[|h.rooms|] == roomId
    ensures r.rooms[..|h.rooms|] == h.rooms
    ensures r.(rooms := h.rooms) == h
  {
    h.(rooms := h.rooms + [roomId])
  }

  class MongoHotelStore {
    /** The collection, in natural order. */
    var hotels: seq<Hotel>

    constructor ()
      ensures hotels == []
    {
      hotels := [];
    }

    /** The unique index on `_id`. */
    predicate Valid()
      reads this
    {
      DistinctKeys(hotels, HotelKey)
    }

    /**
     * UpdateOne({"_id": hotelId}, $push): the hotel with that id gets
     * `roomId` appended to its rooms; every other hotel is unchanged. A
     * driver failure is reported and changes nothing.
     */
    method UpdateHotelsRooms(hotelId: ObjectId, roomId: ObjectId, fault: Option<string>) returns (err: Option<DbError>)
      requires Valid()
      modifies this
      ensures Valid()
      ensures fault.Some? ==> err == Some(Driver(fault.value)) && hotels == old(hotels)
      ensures fault.None? ==> err.None? && |hotels| == |old(hotels)|
      ensures fault.None? ==> forall i :: 0 <= i < |hotels| ==>
        hotels[i] == if old(hotels)[i].id == hotelId then PushRoom(old(hotels)[i], roomId) else old(hotels)[i]
    {
      if fault.Some? {
        err := Some(Driver(fault.value));
        return;
      }
      var apply := (h: Hotel) => PushRoom(h, roomId);
      forall h ensures Matches(HotelDoc(h), ById(hotelId)) <==> HotelKey(h) == hotelId {
        HotelById(h, hotelId);
      }
      UpdateOneByKey(hotels, HotelDoc, HotelKey, hotelId, ById(hotelId), apply);
      UpdateOneKeepsKeys(hotels, HotelDoc, HotelKey, ById(hotelId), apply);
      hotels := UpdateOne(hotels, HotelDoc, ById(hotelId), apply);
      err := None;
    }

    /** FindOne by id: a malformed id or no hotel with that id is an error. */
    function GetHotelByID(id: string): (r: Result<Hotel, DbError>)
      reads this
      ensures ObjectIdFromHex(id).None? ==> r == Failure(ParseObjectId(id).error)
      ensures ObjectIdFromHex(id).Some? ==>
        (r.Success? <==> HasKey(hotels, HotelKey, ObjectIdFromHex(id).value))
      ensures r.Success? ==> r.value in hotels && r.value.id == ObjectIdFromHex(id).value
      ensures r.Failure? && ObjectIdFromHex(id).Some? ==> r.error == NoDocuments
    {
      match ObjectIdFromHex(id)
      case None => Failure(ParseObjectId(id).error)
      case Some(oid) =>
        assert forall h :: Matches(HotelDoc(h), ById(oid)) <==> h.id == oid by {
          forall h ensures Matches(HotelDoc(h), ById(oid)) <==> h.id == oid {
            HotelById(h, oid);
          }
        }
        assert forall i :: 0 <= i < |hotels| ==> hotels[i] in hotels;
        FindOne(hotels, HotelDoc, ById(oid))
    }

    /** Find + All: exactly the hotels matching `filter`, whatever the pagination. */
    function GetHotels(filter: Filter, pag: Pagination): (r: seq<Hotel>)
      reads this
      ensures |r| <= |hotels|
      ensures forall h :: h in r <==> h in hotels && Matches(HotelDoc(h), filter)
      ensures filter == map[] ==> r == hotels
    {
      FindAll(hotels, HotelDoc);
      Find(hotels, HotelDoc, filter)
    }

    /**
     * UpdateOne(filter, $set: update): the first hotel matching `filter`,
     * if any, takes the fields `update` names; no other hotel changes.
     */
    method UpdateHotel(filter: Filter, update: Doc)
      requires Valid()
      modifies this
      ensures Valid()
      ensures |hotels| == |old(hotels)|
      ensures FirstMatch(old(hotels), HotelDoc, filter).None? ==> hotels == old(hotels)
      ensures forall i :: 0 <= i < |hotels| ==>
        hotels[i] == if FirstMatch(old(hotels), HotelDoc, filter) == Some(i)
                     then SetHotel(old(hotels)[i], update) else old(hotels)[i]
    {
      var apply := (h: Hotel) => SetHotel(h, update);
      UpdateOneKeepsKeys(hotels, HotelDoc, HotelKey, filter, apply);
      hotels := UpdateOne(hotels, HotelDoc, filter, apply);
    }

    /**
     * InsertOne: the hotel is stored under its own id, or the generated
     * one when it has none, and returned with that id; an id already
     * taken is a duplicate-key error and stores nothing.
     */
    method InsertHotel(h: Hotel, generated: ObjectId) returns (r: Result<Hotel, DbError>)
      requires Valid()
      modifies this
      ensures Valid()
      ensures var id := InsertedId(h.id, generated);
        if HasKey(old(hotels), HotelKey, id)
        then r == Failure(DuplicateKey(id)) && hotels == old(hotels)
        else r == Success(h.(id := id)) && hotels == old(hotels) + [h.(id := id)]
    {
      var id := InsertedId(h.id, generated);
      if HasKey(hotels, HotelKey, id) {
        r := Failure(DuplicateKey(id));
      } else {
        var stored := h.(id := id);
        AppendFreshKey(hotels, HotelKey, stored);
        hotels := hotels + [stored];
        r := Success(stored);
      }
    }
  }
}
