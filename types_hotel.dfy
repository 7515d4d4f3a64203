/** types/hotel.go: a hotel, its BSON document, and the paged list response. */
module HotelTypes {
  import opened Wrappers
  import opened ObjectIds
  import opened Bson

  datatype Hotel = Hotel(
    id: ObjectId,
    name: string,
    location: string,
    rooms: seq<ObjectId>,
    rating: int)

  /** The stored document; the `rooms` array is not a filterable field here. */
  function HotelDoc(h: Hotel): Doc {
    map[
      "_id" := Oid(h.id),
      "name" := Str(h.name),
      "location" := Str(h.location),
      "rating" := Int(h.rating)]
  }

  /** `$set: u` on a stored hotel: named fields change, the rest (and `rooms`) do not. */
  function SetHotel(h: Hotel, u: Doc): (r: Hotel)
    ensures r.id == h.id && r.rooms == h.rooms
    ensures forall k :: k in HotelDoc(h) && k != "_id" ==>
      k in HotelDoc(r) && HotelDoc(r)[k] == SetField(u, k, HotelDoc(h)[k])
  {
    h.(
      name := if "name" in u && u["name"].Str? then u["name"].s else h.name,
      location := if "location" in u && u["location"].Str? then u["location"].s else h.location,
      rating := if "rating" in u && u["rating"].Int? then u["rating"].i else h.rating)
  }

  /**
   * types.ResourceResp with hotels as its data. Data is an `any` holding
   * the slice cursor.All filled, which stays nil (JSON null, here None)
   * when nothing matched.
   */
  datatype ResourceResp = ResourceResp(results: int, data: Option<seq<Hotel>>, page: int)

  /** The page HandleGetHotels answers with: `hotels`, their number, and the requested page. */
  function Page(hotels: seq<Hotel>, page: int): (r: ResourceResp)
    ensures r.page == page && r.results == |hotels|
    ensures r.data.None? <==> hotels == []
    ensures r.data.Some? ==> r.data.value == hotels
  {
    ResourceResp(|hotels|, if hotels == [] then None else Some(hotels), page)
  }
}
