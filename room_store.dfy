/** db/room_store.go: the rooms collection, which links each new room to its hotel. */
module RoomStore {
  import opened Wrappers
  import opened ObjectIds
  import opened Bson
  import opened Mongo
  import opened HotelTypes
  import opened RoomTypes
  import opened HotelStore

  function RoomKey(r: Room): ObjectId {
    r.id
  }

  class MongoRoomStore {
    /** The collection, in natural order. */
    var rooms: seq<Room>
    /** The hotel store InsertRoom links new rooms through. */
    const hotelStore: MongoHotelStore

    constructor (hotelStore: MongoHotelStore)
      ensures rooms == [] && this.hotelStore == hotelStore
    {
      rooms := [];
      this.hotelStore := hotelStore;
    }

    /** The unique index on `_id`. */
    predicate Valid()
      reads this
    {
      DistinctKeys(rooms, RoomKey)
    }

    /** Find + All: exactly the rooms matching `filter`; the empty filter gives all. */
    function GetRooms(filter: Filter): (r: seq<Room>)
      reads this
      ensures |r| <= |rooms|
      ensures forall x :: x in r <==> x in rooms && Matches(RoomDoc(x), filter)
      ensures filter == map[] ==> r == rooms
    {
      FindAll(rooms, RoomDoc);
      Find(rooms, RoomDoc, filter)
    }

    /**
     * InsertOne, then UpdateHotelsRooms: the room is stored with its id,
     * then that id is pushed onto its hotel's rooms. A failed link is
     * reported, but the room stays stored.
     */
    method InsertRoom(room: Room, generated: ObjectId, linkFault: Option<string>) returns (r: Result<Room, DbError>)
      requires Valid() && hotelStore.Valid()
      modifies this, hotelStore
      ensures Valid() && hotelStore.Valid()
      ensures var id := InsertedId(room.id, generated);
        HasKey(old(rooms), RoomKey, id) ==>
          r == Failure(DuplicateKey(id)) && rooms == old(rooms) && hotelStore.hotels == old(hotelStore.hotels)
      ensures var id := InsertedId(room.id, generated);
        !HasKey(old(rooms), RoomKey, id) ==> rooms == old(rooms) + [room.(id := id)]
      ensures var id := InsertedId(room.id, generated);
        !HasKey(old(rooms), RoomKey, id) && linkFault.Some? ==>
          r == Failure(Driver(linkFault.value)) && hotelStore.hotels == old(hotelStore.hotels)
      ensures var id := InsertedId(room.id, generated);
        !HasKey(old(rooms), RoomKey, id) && linkFault.None? ==>
          r == Success(room.(id := id)) &&
          |hotelStore.hotels| == |old(hotelStore.hotels)| &&
          forall i :: 0 <= i < |hotelStore.hotels| ==>
            hotelStore.hotels[i] ==
              if old(hotelStore.hotels)[i].id == room.hotelId
              then PushRoom(old(hotelStore.hotels)[i], id) else old(hotelStore.hotels)[i]
      ensures r.Success? ==> forall h :: h in hotelStore.hotels && h.id == room.hotelId ==>
        |h.rooms| > 0 && h.rooms[|h.rooms| - 1] == r.value.id
      ensures r.Success? && !HasKey(old(hotelStore.hotels), HotelKey, room.hotelId) ==>
        hotelStore.hotels == old(hotelStore.hotels)
    {
      var id := InsertedId(room.id, generated);
      if HasKey(rooms, RoomKey, id) {
        r := Failure(DuplicateKey(id));
        return;
      }
      var stored := room.(id := id);
      AppendFreshKey(rooms, RoomKey, stored);
      rooms := rooms + [stored];
      var err := hotelStore.UpdateHotelsRooms(stored.hotelId, stored.id, linkFault);
      if err.Some? {
        r := Failure(err.value);
        return;
      }
      r := Success(stored);
      ghost var before := old(hotelStore.hotels);
      forall h | h in hotelStore.hotels && h.id == room.hotelId
        ensures |h.rooms| > 0 && h.rooms[|h.rooms| - 1] == stored.id
      {
        var i :| 0 <= i < |hotelStore.hotels| && hotelStore.hotels[i] == h;
        assert h == PushRoom(before[i], stored.id);
      }
      if !HasKey(before, HotelKey, room.hotelId) {
        assert forall i :: 0 <= i < |before| ==> hotelStore.hotels[i] == before[i];
      }
    }
  }
}
