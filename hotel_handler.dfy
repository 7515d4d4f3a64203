/**
 * api/hotel_handler.go: listing, reading, creating and updating hotels,
 * and listing a hotel's rooms, with the Redis cache in front of the reads.
 */
module HotelHandler {
  import opened Wrappers
  import opened ObjectIds
  import opened Bson
  import opened Mongo
  import opened HotelTypes
  import opened RoomTypes
  import opened HotelStore
  import opened RoomStore
  import opened Json
  import opened Redis
  import opened Http

  /** types.UpdateHotelParams */
  datatype UpdateHotelParams = UpdateHotelParams(name: string, location: string)

  /** types.CreateHotelParams, whose Validate result is an input of HandlePostHotel. */
  datatype CreateHotelParams = CreateHotelParams(name: string, location: string)

  /** The query of GET /hotel: the embedded db.Pagination and the rating. */
  datatype HotelQueryParams = HotelQueryParams(pagination: Pagination, rating: int)

  /** The update map of HandlePutHotel: only the non-empty fields. */
  function UpdateData(p: UpdateHotelParams): (m: Doc)
    ensures "name" in m <==> p.name != ""
    ensures "name" in m ==> m["name"] == Str(p.name)
    ensures "location" in m <==> p.location != ""
    ensures "location" in m ==> m["location"] == Str(p.location)
    ensures m.Keys <= {"name", "location"}
  {
    var m0: Doc := map[];
    var m1 := if p.name != "" then m0["name" := Str(p.name)] else m0;
    if p.location != "" then m1["location" := Str(p.location)] else m1
  }

  /** Applied to a hotel, the update changes the given name and location and nothing else. */
  lemma UpdateDataChangesOnlyGivenFields(h: Hotel, p: UpdateHotelParams)
    ensures SetHotel(h, UpdateData(p)).name == if p.name != "" then p.name else h.name
    ensures SetHotel(h, UpdateData(p)).location == if p.location != "" then p.location else h.location
    ensures SetHotel(h, UpdateData(p)).(name := h.name, location := h.location) == h
  {
    assert "rating" !in UpdateData(p);
  }

  /** The filter of HandleGetHotels: "rating" only for a positive rating. */
  function RatingFilter(q: HotelQueryParams): (f: Filter)
    ensures "rating" in f <==> q.rating > 0
    ensures "rating" in f ==> f["rating"] == Eq(Int(q.rating))
    ensures f.Keys <= {"rating"}
  {
    if q.rating > 0 then map["rating" := Eq(Int(q.rating))] else map[]
  }

  lemma RatingFilterSelects(h: Hotel, q: HotelQueryParams)
    ensures Matches(HotelDoc(h), RatingFilter(q)) <==> q.rating <= 0 || h.rating == q.rating
  {
    if q.rating > 0 {
      assert "rating" in RatingFilter(q);
    }
  }

  /**
   * GET /hotel. A cached page under "hotels-<url>" is served as it is;
   * otherwise the hotels with the requested rating (all of them for a
   * rating of 0 or less) are listed, whatever the page, with null data
   * when there are none. The cache is only read: the write after the
   * return is never reached.
   */
  function HandleGetHotels(store: MongoHotelStore, cache: RedisCacheStore, query: Result<HotelQueryParams, string>,
                           url: string): (resp: Response)
    reads store, cache
    ensures query.Failure? ==> resp == ErrorHandler(Api(BadRequest))
    ensures query.Success? && UnmarshalPage(cache.Get("hotels-" + url)).Some? ==>
      resp == Ok(PageJson(UnmarshalPage(cache.Get("hotels-" + url)).value))
    ensures query.Success? && UnmarshalPage(cache.Get("hotels-" + url)).None? ==>
      resp.status == StatusOK && resp.body.PageJson? &&
      var page := resp.body.page;
      page.page == query.value.pagination.page &&
      (page.data.None? <==>
        forall h :: h in store.hotels ==> !(query.value.rating <= 0 || h.rating == query.value.rating)) &&
      (page.data.None? ==> page.results == 0) &&
      (page.data.Some? ==>
        && page.results == |page.data.value|
        && forall h :: h in page.data.value <==>
             h in store.hotels && (query.value.rating <= 0 || h.rating == query.value.rating))
  {
    match query
    case Failure(_) => ErrorHandler(Api(BadRequest))
    case Success(q) =>
      match UnmarshalPage(cache.Get("hotels-" + url))
      case Some(cached) => Ok(PageJson(cached))
      case None =>
        var hotels := store.GetHotels(RatingFilter(q), q.pagination);
        assert forall h :: Matches(HotelDoc(h), RatingFilter(q)) <==> q.rating <= 0 || h.rating == q.rating by {
          forall h ensures Matches(HotelDoc(h), RatingFilter(q)) <==> q.rating <= 0 || h.rating == q.rating {
            RatingFilterSelects(h, q);
          }
        }
        assert hotels != [] ==> hotels[0] in hotels;
        Ok(PageJson(Page(hotels, q.pagination.page)))
  }

  /**
   * GET /hotel/:id. A cached hotel is served as it is; otherwise the
   * store is read and the hotel cached under "hotel-<id>".
   */
  method HandleGetHotel(store: MongoHotelStore, cache: RedisCacheStore, id: string) returns (resp: Response)
    modifies cache
    ensures old(UnmarshalHotel(cache.Get("hotel-" + id))).Some? ==>
      resp == Ok(HotelJson(old(UnmarshalHotel(cache.Get("hotel-" + id))).value)) &&
      cache.entries == old(cache.entries)
    ensures old(UnmarshalHotel(cache.Get("hotel-" + id))).None? && store.GetHotelByID(id).Failure? ==>
      resp == ErrorHandler(Api(ResourceNotFound("hotel"))) && cache.entries == old(cache.entries)
    ensures old(UnmarshalHotel(cache.Get("hotel-" + id))).None? && store.GetHotelByID(id).Success? ==>
      resp == Ok(HotelJson(store.GetHotelByID(id).value)) &&
      cache.entries == old(cache.entries)["hotel-" + id := MarshalHotel(store.GetHotelByID(id).value)]
  {
    var key := "hotel-" + id;
    var val := cache.Get(key);
    if val != Empty {
      match UnmarshalHotel(val)
      case Some(cached) =>
        return Ok(HotelJson(cached));
      case None =>
    }
    var found := store.GetHotelByID(id);
    if found.Failure? {
      return ErrorHandler(Api(ResourceNotFound("hotel")));
    }
    cache.Set(key, MarshalHotel(found.value));
    resp := Ok(HotelJson(found.value));
  }

  /**
   * GET /hotel/:id/rooms. The cache under "hotel-rooms-<url>" is read
   * before the id is parsed, so a cached list is served even for a
   * malformed id; otherwise the hotel's rooms are listed and cached.
   * No rooms is a nil slice, written and cached as JSON null.
   */
  method HandleGetRooms(store: MongoRoomStore, cache: RedisCacheStore, id: string, url: string) returns (resp: Response)
    modifies cache
    ensures old(UnmarshalRooms(cache.Get("hotel-rooms-" + url))).Some? ==>
      resp == RoomsResponse(old(UnmarshalRooms(cache.Get("hotel-rooms-" + url))).value) &&
      cache.entries == old(cache.entries)
    ensures old(UnmarshalRooms(cache.Get("hotel-rooms-" + url))).None? && ObjectIdFromHex(id).None? ==>
      resp == ErrorHandler(Api(InvalidId)) && cache.entries == old(cache.entries)
    ensures old(UnmarshalRooms(cache.Get("hotel-rooms-" + url))).None? && ObjectIdFromHex(id).Some? ==>
      var rooms := store.GetRooms(ByHotel(ObjectIdFromHex(id).value));
      resp == RoomsResponse(rooms) &&
      (forall r :: r in rooms <==> r in store.rooms && r.hotelId == ObjectIdFromHex(id).value) &&
      cache.entries == old(cache.entries)["hotel-rooms-" + url := MarshalRooms(rooms)]
  {
    var key := "hotel-rooms-" + url;
    var val := cache.Get(key);
    if val != Empty {
      match UnmarshalRooms(val)
      case Some(cached) =>
        return RoomsResponse(cached);
      case None =>
    }
    var parsed := ObjectIdFromHex(id);
    if parsed.None? {
      return ErrorHandler(Api(InvalidId));
    }
    var oid := parsed.value;
    var rooms := store.GetRooms(ByHotel(oid));
    forall r ensures Matches(RoomDoc(r), ByHotel(oid)) <==> r.hotelId == oid {
      ByHotelMatches(r, oid);
    }
    cache.Set(key, MarshalRooms(rooms));
    resp := RoomsResponse(rooms);
  }

  /**
   * POST /admin/hotel. `errors` is what CreateHotelParams.Validate
   * reports. A new hotel starts with rating 0 and no rooms.
   */
  method HandlePostHotel(store: MongoHotelStore, body: Result<CreateHotelParams, string>, errors: map<string, string>,
                         generated: ObjectId) returns (resp: Response)
    requires store.Valid()
    modifies store
    ensures store.Valid()
    ensures body.Failure? ==> resp == ErrorHandler(Api(BadRequest))
    ensures body.Success? && errors != map[] ==> resp == Response(StatusBadRequest, Strings(errors))
    ensures body.Success? && errors == map[] ==>
      if HasKey(old(store.hotels), HotelKey, generated)
      then resp == ErrorHandler(Db(DuplicateKey(generated)))
      else resp.status == StatusOK && |store.hotels| == |old(store.hotels)| + 1
    ensures resp.status != StatusOK ==> store.hotels == old(store.hotels)
    ensures resp.status == StatusOK ==>
      body.Success? && errors == map[] && resp.body.HotelJson? &&
      var h := resp.body.hotel;
      store.hotels == old(store.hotels) + [h] && h.id == generated &&
      h.name == body.value.name && h.location == body.value.location &&
      h.rating == 0 && h.rooms == []
  {
    if body.Failure? {
      return ErrorHandler(Api(BadRequest));
    }
    if errors != map[] {
      return Response(StatusBadRequest, Strings(errors));
    }
    var hotel := Hotel(NilObjectId, body.value.name, body.value.location, [], 0);
    var inserted := store.InsertHotel(hotel, generated);
    match inserted
    case Failure(e) =>
      resp := ErrorHandler(Db(e));
    case Success(h) =>
      resp := Ok(HotelJson(h));
  }

  /**
   * PUT /admin/hotel/:id. The hotel with that id takes the non-empty
   * name and location given; the cache is not touched, so a cached
   * "hotel-<id>" keeps serving the old hotel.
   */
  method HandlePutHotel(store: MongoHotelStore, cache: RedisCacheStore, id: string,
                        body: Result<UpdateHotelParams, string>) returns (resp: Response)
    requires store.Valid()
    modifies store
    ensures store.Valid()
    ensures cache.entries == old(cache.entries)
    ensures body.Failure? ==> resp == ErrorHandler(Api(BadRequest)) && store.hotels == old(store.hotels)
    ensures body.Success? && ObjectIdFromHex(id).None? ==>
      resp == ErrorHandler(Api(InvalidId)) && store.hotels == old(store.hotels)
    ensures body.Success? && ObjectIdFromHex(id).Some? ==>
      resp == Ok(Strings(map["msg" := "updated successfully"])) &&
      |store.hotels| == |old(store.hotels)| &&
      forall i :: 0 <= i < |store.hotels| ==>
        store.hotels[i] == if old(store.hotels)[i].id == ObjectIdFromHex(id).value
                           then SetHotel(old(store.hotels)[i], UpdateData(body.value)) else old(store.hotels)[i]
  {
    if body.Failure? {
      return ErrorHandler(Api(BadRequest));
    }
    var update := UpdateData(body.value);
    var parsed := ObjectIdFromHex(id);
    if parsed.None? {
      return ErrorHandler(Api(InvalidId));
    }
    var oid := parsed.value;
    forall h ensures Matches(HotelDoc(h), ById(oid)) <==> HotelKey(h) == oid {
      HotelById(h, oid);
    }
    FirstMatchByKey(store.hotels, HotelDoc, HotelKey, oid, ById(oid));
    store.UpdateHotel(ById(oid), update);
    resp := Ok(Strings(map["msg" := "updated successfully"]));
  }
}
