/** api/admin.go: the gate in front of the /admin routes. */
module Admin {
  import opened Wrappers
  import opened BookingTypes
  import opened UserTypes
  import opened Http
  import opened BookingHandler

  /** AdminAuth: continue (None) exactly when the context user is an admin. */
  function AdminAuth(user: Option<User>): (r: Option<ApiError>)
    ensures r.None? <==> user.Some? && user.value.isAdmin
    ensures r.Some? ==> r.value == Unauthorized
  {
    match user
    case None => Some(Unauthorized)
    case Some(u) => if !u.isAdmin then Some(Unauthorized) else None
  }

  /** Only the flag matters: two users with the same flag get the same answer. */
  lemma AdminAuthOnlyReadsFlag(a: User, b: User)
    requires a.isAdmin == b.isAdmin
    ensures AdminAuth(Some(a)) == AdminAuth(Some(b))
  {
  }

  /** A user who passes the admin gate may read any booking. */
  lemma AdminReadsAnyBooking(u: User, b: Booking)
    requires AdminAuth(Some(u)).None?
    ensures CheckBookingOwner(Some(u), b).None?
  {
  }
}
