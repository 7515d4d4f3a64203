/** types/room.go: room types, rooms and the validation of a new room. */
module RoomTypes {
  import opened ObjectIds
  import opened Bson

  type RoomType = int

  /** The named room types, iota + 1 onwards; a room's type is not checked against them. */
  const Single: RoomType := 1
  const Double: RoomType := 2
  const SeaView: RoomType := 3
  const KingSuite: RoomType := 4

  /** BasePrice and Price are float64 in Go; only their sign is ever tested. */
  datatype Room = Room(
    id: ObjectId,
    roomType: RoomType,
    basePrice: real,
    price: real,
    hotelId: ObjectId)

  function RoomDoc(r: Room): Doc {
    map[
      "_id" := Oid(r.id),
      "type" := Int(r.roomType),
      "basePrice" := Float(r.basePrice),
      "price" := Float(r.price),
      "hotelID" := Oid(r.hotelId)]
  }

  /** The filter {"hotelID": hotelId}. */
  function ByHotel(hotelId: ObjectId): Filter {
    map["hotelID" := Eq(Oid(hotelId))]
  }

  lemma ByHotelMatches(r: Room, hotelId: ObjectId)
    ensures Matches(RoomDoc(r), ByHotel(hotelId)) <==> r.hotelId == hotelId
  {
    assert "hotelID" in ByHotel(hotelId);
  }

  datatype CreateRoomParams = CreateRoomParams(hotelId: string, roomType: string, basePrice: real)

  const HotelIdRequired: string := "hotelId is required"
  const TypeTooShort: string := "type must be at least 2 characters"
  const PriceNotPositive: string := "price must be greater than 0"

  /**
   * CreateRoomParams.Validate: one entry per broken rule, each under its
   * own key with its fixed message; the map is empty exactly when the
   * parameters are acceptable.
   */
  function Validate(p: CreateRoomParams): (errors: map<string, string>)
    ensures "hotelId" in errors <==> |p.hotelId| == 0
    ensures "type" in errors <==> |p.roomType| < 2
    ensures "basePrice" in errors <==> p.basePrice <= 0.0
    ensures errors.Keys <= {"hotelId", "type", "basePrice"}
    ensures "hotelId" in errors ==> errors["hotelId"] == HotelIdRequired
    ensures "type" in errors ==> errors["type"] == TypeTooShort
    ensures "basePrice" in errors ==> errors["basePrice"] == PriceNotPositive
    ensures errors == map[] <==> |p.hotelId| > 0 && |p.roomType| >= 2 && p.basePrice > 0.0
  {
    var e0: map<string, string> := map[];
    var e1 := if |p.hotelId| == 0 then e0["hotelId" := HotelIdRequired] else e0;
    var e2 := if |p.roomType| < 2 then e1["type" := TypeTooShort] else e1;
    if p.basePrice <= 0.0 then e2["basePrice" := PriceNotPositive] else e2
  }
}
