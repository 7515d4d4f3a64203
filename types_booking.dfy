/** types/booking.go: a room reservation and its BSON document. */
module BookingTypes {
  import opened ObjectIds
  import opened GoTime
  import opened Bson

  datatype Booking = Booking(
    id: ObjectId,
    userId: ObjectId,
    roomId: ObjectId,
    numPersons: int,
    fromDate: Time,
    tillDate: Time,
    canceled: bool)

  /** The stored document, under the field names of the struct's bson tags. */
  function BookingDoc(b: Booking): Doc {
    map[
      "_id" := Oid(b.id),
      "userID" := Oid(b.userId),
      "roomID" := Oid(b.roomId),
      "numPersons" := Int(b.numPersons),
      "fromDate" := Date(b.fromDate),
      "tillDate" := Date(b.tillDate),
      "canceled" := Bool(b.canceled)]
  }

  /**
   * `$set: u` on a stored booking: every field `u` names with a value of
   * the field's kind takes that value; every other field, and `_id`, keeps
   * its value.
   */
  function SetBooking(b: Booking, u: Doc): (r: Booking)
    ensures r.id == b.id
  {
    b.(
      userId := if "userID" in u && u["userID"].Oid? then u["userID"].id else b.userId,
      roomId := if "roomID" in u && u["roomID"].Oid? then u["roomID"].id else b.roomId,
      numPersons := if "numPersons" in u && u["numPersons"].Int? then u["numPersons"].i else b.numPersons,
      fromDate := if "fromDate" in u && u["fromDate"].Date? then u["fromDate"].t else b.fromDate,
      tillDate := if "tillDate" in u && u["tillDate"].Date? then u["tillDate"].t else b.tillDate,
      canceled := if "canceled" in u && u["canceled"].Bool? then u["canceled"].b else b.canceled)
  }

  /** $set in document terms: the fields `u` names change, the others do not. */
  lemma SetBookingFields(b: Booking, u: Doc, k: string)
    requires k in BookingDoc(b) && k != "_id"
    ensures k in BookingDoc(SetBooking(b, u))
    ensures BookingDoc(SetBooking(b, u))[k] == SetField(u, k, BookingDoc(b)[k])
  {
    var r := SetBooking(b, u);
    if k == "userID" {
      assert BookingDoc(r)[k] == Oid(r.userId);
    } else if k == "roomID" {
      assert BookingDoc(r)[k] == Oid(r.roomId);
    } else if k == "numPersons" {
      assert BookingDoc(r)[k] == Int(r.numPersons);
    } else if k == "fromDate" {
      assert BookingDoc(r)[k] == Date(r.fromDate);
    } else if k == "tillDate" {
      assert BookingDoc(r)[k] == Date(r.tillDate);
    } else {
      assert k == "canceled";
      assert BookingDoc(r)[k] == Bool(r.canceled);
    }
  }
}
