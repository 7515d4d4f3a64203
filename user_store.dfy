/**
 * The users collection behind db.UserStore. Its Go implementation is not
 * part of this model; it is taken to behave like the other Mongo stores:
 * ids are parsed from hex, single reads are FindOne, updates are `$set`.
 */
module UserStore {
  import opened Wrappers
  import opened ObjectIds
  import opened Bson
  import opened Mongo
  import opened UserTypes

  function UserKey(u: User): ObjectId {
    u.id
  }

  lemma UserById(u: User, id: ObjectId)
    ensures Matches(UserDoc(u), ById(id)) <==> UserKey(u) == id
  {
    ByIdMatches(UserDoc(u), id);
  }

  /** The filter {"email": email}. */
  function ByEmail(email: string): Filter {
    map["email" := Eq(Str(email))]
  }

  lemma ByEmailMatches(u: User, email: string)
    ensures Matches(UserDoc(u), ByEmail(email)) <==> u.email == email
  {
    assert "email" in ByEmail(email);
  }

  class MongoUserStore {
    /** The collection, in natural order. */
    var users: seq<User>

    constructor ()
      ensures users == []
    {
      users := [];
    }

    /** The unique index on `_id`. */
    predicate Valid()
      reads this
    {
      DistinctKeys(users, UserKey)
    }

    /**
     * FindOne({"email": email}): the first user with that email, or
     * ErrNoDocuments when there is none; a driver failure is reported as is.
     */
    function GetUserByEmail(email: string, fault: Option<string>): (r: Result<User, DbError>)
      reads this
      ensures fault.Some? ==> r == Failure(Driver(fault.value))
      ensures fault.None? ==> (r.Success? <==> exists u :: u in users && u.email == email)
      ensures fault.None? && r.Failure? ==> r.error == NoDocuments
      ensures r.Success? ==> r.value in users && r.value.email == email
    {
      if fault.Some? then Failure(Driver(fault.value))
      else
        assert forall u :: Matches(UserDoc(u), ByEmail(email)) <==> u.email == email by {
          forall u ensures Matches(UserDoc(u), ByEmail(email)) <==> u.email == email {
            ByEmailMatches(u, email);
          }
        }
        FindOne(users, UserDoc, ByEmail(email))
    }

    /** FindOne by id: a malformed id or no user with that id is an error. */
    function GetUserByID(id: string): (r: Result<User, DbError>)
      reads this
      ensures ObjectIdFromHex(id).None? ==> r == Failure(ParseObjectId(id).error)
      ensures ObjectIdFromHex(id).Some? ==>
        (r.Success? <==> HasKey(users, UserKey, ObjectIdFromHex(id).value))
      ensures r.Success? ==> r.value in users && r.value.id == ObjectIdFromHex(id).value
      ensures r.Failure? && ObjectIdFromHex(id).Some? ==> r.error == NoDocuments
    {
      match ObjectIdFromHex(id)
      case None => Failure(ParseObjectId(id).error)
      case Some(oid) =>
        assert forall u :: Matches(UserDoc(u), ById(oid)) <==> u.id == oid by {
          forall u ensures Matches(UserDoc(u), ById(oid)) <==> u.id == oid {
            UserById(u, oid);
          }
        }
        assert forall i :: 0 <= i < |users| ==> users[i] in users;
        FindOne(users, UserDoc, ById(oid))
    }

    /** Find with the empty filter: every user, in natural order. */
    function GetUsers(): (r: seq<User>)
      reads this
      ensures r == users
    {
      FindAll(users, UserDoc);
      Find(users, UserDoc, map[])
    }

    /**
     * InsertOne: the user is stored under its own id, or the generated
     * one when it has none, and returned with that id; an id already
     * taken is a duplicate-key error and stores nothing.
     */
    method InsertUser(u: User, generated: ObjectId) returns (r: Result<User, DbError>)
      requires Valid()
      modifies this
      ensures Valid()
      ensures var id := InsertedId(u.id, generated);
        if HasKey(old(users), UserKey, id)
        then r == Failure(DuplicateKey(id)) && users == old(users)
        else r == Success(u.(id := id)) && users == old(users) + [u.(id := id)]
    {
      var id := InsertedId(u.id, generated);
      if HasKey(users, UserKey, id) {
        r := Failure(DuplicateKey(id));
      } else {
        var stored := u.(id := id);
        AppendFreshKey(users, UserKey, stored);
        users := users + [stored];
        r := Success(stored);
      }
    }

    /**
     * UpdateOne({"_id": id}, $set: params.ToBSON()): the user with that id
     * takes the names `params` gives; a malformed id is an error.
     */
    method UpdateUser(id: string, params: UpdateUserParams) returns (err: Option<DbError>)
      requires Valid()
      modifies this
      ensures Valid()
      ensures ObjectIdFromHex(id).None? ==> err == Some(ParseObjectId(id).error) && users == old(users)
      ensures ObjectIdFromHex(id).Some? ==> err.None? && |users| == |old(users)|
      ensures ObjectIdFromHex(id).Some? ==> forall i :: 0 <= i < |users| ==>
        users[i] == if old(users)[i].id == ObjectIdFromHex(id).value
                    then SetUser(old(users)[i], ToBSON(params)) else old(users)[i]
    {
      match ObjectIdFromHex(id)
      case None =>
        err := Some(ParseObjectId(id).error);
      case Some(oid) =>
        var apply := (u: User) => SetUser(u, ToBSON(params));
        forall u ensures Matches(UserDoc(u), ById(oid)) <==> UserKey(u) == oid {
          UserById(u, oid);
        }
        UpdateOneByKey(users, UserDoc, UserKey, oid, ById(oid), apply);
        UpdateOneKeepsKeys(users, UserDoc, UserKey, ById(oid), apply);
        users := UpdateOne(users, UserDoc, ById(oid), apply);
        err := None;
    }

    /**
     * DeleteOne({"_id": id}): the user with that id, if any, is removed; a
     * malformed id or a driver failure is an error and removes nothing.
     */
    method DeleteUser(id: string, fault: Option<string>) returns (err: Option<DbError>)
      requires Valid()
      modifies this
      ensures Valid()
      ensures ObjectIdFromHex(id).None? ==> err == Some(ParseObjectId(id).error) && users == old(users)
      ensures ObjectIdFromHex(id).Some? && fault.Some? ==> err == Some(Driver(fault.value)) && users == old(users)
      ensures ObjectIdFromHex(id).Some? && fault.None? ==> err.None?
      ensures ObjectIdFromHex(id).Some? && fault.None? ==>
        forall u :: u in users <==> u in old(users) && u.id != ObjectIdFromHex(id).value
    {
      match ObjectIdFromHex(id)
      case None =>
        err := Some(ParseObjectId(id).error);
      case Some(oid) =>
        if fault.Some? {
          err := Some(Driver(fault.value));
          return;
        }
        forall u ensures Matches(UserDoc(u), ById(oid)) <==> UserKey(u) == oid {
          UserById(u, oid);
        }
        DeleteOneByKey(users, UserDoc, UserKey, oid, ById(oid));
        users := DeleteOne(users, UserDoc, ById(oid));
        err := None;
    }
  }
}
