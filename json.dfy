/**
 * encoding/json as the cache paths use it, kept symbolic: a marshalled
 * value remembers what it encodes, and any other text is `Raw`.
 */
module Json {
  import opened Wrappers
  import opened BookingTypes
  import opened HotelTypes
  import opened RoomTypes

  datatype Encoded =
    | Raw(text: string)
    | OfBooking(booking: Booking)
    | OfHotel(hotel: Hotel)
    | OfRooms(rooms: seq<Room>)
    | OfPage(page: ResourceResp)

  /** The empty string, which the cache returns for a missing key. */
  const Empty: Encoded := Raw("")

  function MarshalBooking(b: Booking): (j: Encoded)
    ensures j != Empty && UnmarshalBooking(j) == Some(b)
  {
    OfBooking(b)
  }

  function UnmarshalBooking(j: Encoded): Option<Booking> {
    if j.OfBooking? then Some(j.booking) else None
  }

  function MarshalHotel(h: Hotel): (j: Encoded)
    ensures j != Empty && UnmarshalHotel(j) == Some(h)
  {
    OfHotel(h)
  }

  function UnmarshalHotel(j: Encoded): Option<Hotel> {
    if j.OfHotel? then Some(j.hotel) else None
  }

  function MarshalRooms(rs: seq<Room>): (j: Encoded)
    ensures j != Empty && UnmarshalRooms(j) == Some(rs)
  {
    OfRooms(rs)
  }

  function UnmarshalRooms(j: Encoded): Option<seq<Room>> {
    if j.OfRooms? then Some(j.rooms) else None
  }

  function MarshalPage(p: ResourceResp): (j: Encoded)
    ensures j != Empty && UnmarshalPage(j) == Some(p)
  {
    OfPage(p)
  }

  function UnmarshalPage(j: Encoded): Option<ResourceResp> {
    if j.OfPage? then Some(j.page) else None
  }
}
