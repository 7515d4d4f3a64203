/**
 * Responses of the handlers, the typed API errors, and api/errors.go's
 * ErrorHandler, which turns an error a handler returns into a response.
 */
module Http {
  import opened Wrappers
  import opened Mongo
  import opened BookingTypes
  import opened HotelTypes
  import opened RoomTypes
  import opened UserTypes
  import opened Jwt

  const StatusOK: int := 200
  const StatusBadRequest: int := 400
  const StatusUnauthorized: int := 401
  const StatusNotFound: int := 404
  const StatusInternalServerError: int := 500

  /** types.Error values, by the constructor that made them. */
  datatype ApiError =
    | Unauthorized                       // ErrUnAuthorized()
    | ResourceNotFound(resource: string) // ErrResourceNotFound(resource)
    | BadRequest                         // ErrBadRequest()
    | InvalidId                          // ErrInvalidID()
    | WithCode(code: int, msg: string)   // NewError(code, msg)

  /** The status code a types.Error carries. */
  function Code(e: ApiError): int {
    match e
    case Unauthorized => StatusUnauthorized
    case ResourceNotFound(_) => StatusNotFound
    case BadRequest => StatusBadRequest
    case InvalidId => StatusBadRequest
    case WithCode(c, _) => c
  }

  /** An error a handler returns: a types.Error, a driver error, or any other Go error. */
  datatype Error = Api(api: ApiError) | Db(db: DbError) | Plain(msg: string)

  /** err.Error() of an error that is not a types.Error */
  function Text(e: Error): string
    requires !e.Api?
  {
    match e
    case Db(d) => Message(d)
    case Plain(m) => m
  }

  /** The JSON bodies the handlers write. */
  datatype Body =
    | ErrorJson(err: ApiError)                  // a types.Error
    | Generic(kind: string, msg: string)        // genericResp{Type, Msg}
    | Strings(entries: map<string, string>)     // map[string]string, fiber.Map, db.Map
    | Null                                      // a nil slice
    | BookingJson(booking: Booking)
    | BookingList(bookings: seq<Booking>)
    | UserJson(user: User)
    | UserList(users: seq<User>)
    | AuthJson(user: User, token: Token)        // AuthResponse
    | HotelJson(hotel: Hotel)
    | PageJson(page: ResourceResp)
    | RoomList(rooms: seq<Room>)

  datatype Response = Response(status: int, body: Body)

  /** c.JSON(body) with no status set */
  function Ok(body: Body): Response {
    Response(StatusOK, body)
  }

  /**
   * c.JSON(rooms) for a room list read with cursor.All, which leaves the
   * slice nil, and so writes null, when nothing matched.
   */
  function RoomsResponse(rooms: seq<Room>): Response {
    if rooms == [] then Ok(Null) else Ok(RoomList(rooms))
  }

  /**
   * ErrorHandler: a types.Error is answered with its own code and itself
   * as the body; any other error becomes a 500 carrying its message.
   */
  function ErrorHandler(e: Error): (r: Response)
    ensures r.body.ErrorJson? && r.status == Code(r.body.err)
    ensures e.Api? ==> r.body.err == e.api
    ensures !e.Api? ==> r.status == StatusInternalServerError && r.body.err.msg == Text(e)
  {
    match e
    case Api(a) => Response(Code(a), ErrorJson(a))
    case _ => Response(StatusInternalServerError, ErrorJson(WithCode(StatusInternalServerError, Text(e))))
  }
}
