/**
 * BSON documents and query filters, as far as the stores use them:
 * a document is a map from field names to values; a filter maps field
 * names to an equality, `$lt` or `$gt` condition.
 */
module Bson {
  import opened Wrappers
  import opened ObjectIds

  datatype Value =
    | Str(s: string)
    | Int(i: int)
    | Float(r: real)
    | Bool(b: bool)
    | Oid(id: ObjectId)
    | Date(t: int)

  /** bson.M / db.Map */
  type Doc = map<string, Value>

  datatype Cond = Eq(v: Value) | Lt(v: Value) | Gt(v: Value)

  type Filter = map<string, Cond>

  /** Ordering of values of the same numeric or date kind. */
  predicate Less(a: Value, b: Value) {
    match (a, b)
    case (Int(x), Int(y)) => x < y
    case (Float(x), Float(y)) => x < y
    case (Date(x), Date(y)) => x < y
    case _ => false
  }

  /** A condition on a field; no condition holds of a missing field. */
  predicate Holds(c: Cond, field: Option<Value>) {
    match field
    case None => false
    case Some(v) =>
      match c
      case Eq(w) => v == w
      case Lt(w) => Less(v, w)
      case Gt(w) => Less(w, v)
  }

  function Field(d: Doc, k: string): Option<Value> {
    if k in d then Some(d[k]) else None
  }

  /** A document matches a filter when every condition holds of its field. */
  predicate Matches(d: Doc, f: Filter) {
    forall k :: k in f ==> Holds(f[k], Field(d, k))
  }

  /** True when two values are of the same BSON kind. */
  predicate SameKind(a: Value, b: Value) {
    match (a, b)
    case (Str(_), Str(_)) => true
    case (Int(_), Int(_)) => true
    case (Float(_), Float(_)) => true
    case (Bool(_), Bool(_)) => true
    case (Oid(_), Oid(_)) => true
    case (Date(_), Date(_)) => true
    case _ => false
  }

  /**
   * The value field `k` takes under `$set: u` in a document whose field
   * currently holds `current`: the given value when `u` names the field with a
   * value of the field's kind, the old value otherwise.
   */
  function SetField(u: Doc, k: string, current: Value): Value {
    if k in u && SameKind(u[k], current) then u[k] else current
  }

  lemma EmptyFilterMatchesAll(d: Doc)
    ensures Matches(d, map[])
  {
  }
}
