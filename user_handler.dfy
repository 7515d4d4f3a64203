/**
 * api/user_handler.go: registering, reading, updating and deleting users.
 * Registration looks the email up before inserting, so registrations that
 * see the lookup answer never store two users with one email.
 */
module UserHandler {
  import opened Wrappers
  import opened ObjectIds
  import opened GoTime
  import opened Mongo
  import opened UserTypes
  import opened UserStore
  import opened Http

  const EmailExists: string := "email already exists"

  /** No two stored users share an email. */
  predicate UniqueEmails(users: seq<User>) {
    forall u, v :: u in users && v in users && u.email == v.email ==> u == v
  }

  /**
   * POST /user. `emailSyntaxOk` is the email validator's verdict;
   * `lookupFault` a driver failure of the email lookup, which the handler
   * takes as "email free"; `generated` the id the driver would give.
   */
  method HandlePostUser(store: MongoUserStore, body: Result<CreateUserParams, string>, emailSyntaxOk: bool,
                        lookupFault: Option<string>, now: Time, generated: ObjectId) returns (resp: Response)
    requires store.Valid()
    modifies store
    ensures store.Valid()
    ensures body.Failure? ==> resp == ErrorHandler(Plain(body.error))
    ensures body.Success? && ValidateCreateUserParams(body.value, emailSyntaxOk) != map[] ==>
      resp == Response(StatusBadRequest, Strings(ValidateCreateUserParams(body.value, emailSyntaxOk)))
    ensures body.Success? && ValidateCreateUserParams(body.value, emailSyntaxOk) == map[] && lookupFault.None? &&
            (exists u :: u in old(store.users) && u.email == body.value.email) ==>
      resp == Response(StatusBadRequest, Strings(map["error" := EmailExists]))
    ensures body.Success? && ValidateCreateUserParams(body.value, emailSyntaxOk) == map[] &&
            (lookupFault.Some? || forall u :: u in old(store.users) ==> u.email != body.value.email) &&
            |body.value.password| <= BcryptMaxLength && !HasKey(old(store.users), UserKey, generated) ==>
      resp.status == StatusOK
    ensures resp.status != StatusOK ==> store.users == old(store.users)
    ensures resp.status == StatusOK ==>
      body.Success? && resp.body.UserJson? &&
      var u := resp.body.user;
      store.users == old(store.users) + [u] &&
      u.firstName == body.value.firstName && u.lastName == body.value.lastName &&
      u.email == body.value.email && !u.isAdmin &&
      ValidatePassword(u.encryptedPassword, body.value.password) &&
      (lookupFault.None? ==> forall v :: v in old(store.users) ==> v.email != u.email)
    ensures lookupFault.None? && UniqueEmails(old(store.users)) ==> UniqueEmails(store.users)
  {
    if body.Failure? {
      return ErrorHandler(Plain(body.error));
    }
    var params := body.value;
    var errors := ValidateCreateUserParams(params, emailSyntaxOk);
    if errors != map[] {
      return Response(StatusBadRequest, Strings(errors));
    }
    var existing := store.GetUserByEmail(params.email, lookupFault);
    if existing.Success? {
      return Response(StatusBadRequest, Strings(map["error" := EmailExists]));
    }
    var made := NewUserFromParams(params, now);
    if made.Failure? {
      return ErrorHandler(Plain(made.error));
    }
    var inserted := store.InsertUser(made.value, generated);
    match inserted
    case Failure(e) =>
      resp := ErrorHandler(Db(e));
    case Success(u) =>
      resp := Ok(UserJson(u));
  }

  /** GET /user/:id: the user, or a 200 "not found" body when no user has that id. */
  function HandleGetUser(store: MongoUserStore, id: string): (resp: Response)
    reads store
    ensures ObjectIdFromHex(id).None? ==> resp == ErrorHandler(Db(ParseObjectId(id).error))
    ensures ObjectIdFromHex(id).Some? && !HasKey(store.users, UserKey, ObjectIdFromHex(id).value) ==>
      resp == Ok(Strings(map["error" := "not found"]))
    ensures ObjectIdFromHex(id).Some? && HasKey(store.users, UserKey, ObjectIdFromHex(id).value) ==>
      resp.status == StatusOK && resp.body.UserJson? &&
      resp.body.user in store.users && resp.body.user.id == ObjectIdFromHex(id).value
  {
    match store.GetUserByID(id)
    case Success(u) => Ok(UserJson(u))
    case Failure(e) => if e == NoDocuments then Ok(Strings(map["error" := "not found"])) else ErrorHandler(Db(e))
  }

  /** GET /admin/user: every user. */
  function HandleGetUsers(store: MongoUserStore): (resp: Response)
    reads store
    ensures resp.status == StatusOK && resp.body == UserList(store.users)
  {
    Ok(UserList(store.GetUsers()))
  }

  /** DELETE /user/:id: any store failure is a bad request; success echoes the id. */
  method HandleDeleteUser(store: MongoUserStore, id: string, fault: Option<string>) returns (resp: Response)
    requires store.Valid()
    modifies store
    ensures store.Valid()
    ensures resp.status == StatusOK <==> ObjectIdFromHex(id).Some? && fault.None?
    ensures resp.status != StatusOK ==> resp == ErrorHandler(Api(BadRequest)) && store.users == old(store.users)
    ensures resp.status == StatusOK ==>
      resp.body == Strings(map["message" := "user deleted successfully", "id" := id]) &&
      forall u :: u in store.users <==> u in old(store.users) && u.id != ObjectIdFromHex(id).value
    ensures UniqueEmails(old(store.users)) ==> UniqueEmails(store.users)
  {
    var err := store.DeleteUser(id, fault);
    if err.Some? {
      return ErrorHandler(Api(BadRequest));
    }
    resp := Ok(Strings(map["message" := "user deleted successfully", "id" := id]));
  }

  /**
   * PUT /user/:id: an unreadable body is a bad request; a store error is a
   * 400 carrying its message; otherwise the names given are set and the
   * id is echoed. Emails never change.
   */
  method HandlePutUser(store: MongoUserStore, id: string, body: Result<UpdateUserParams, string>) returns (resp: Response)
    requires store.Valid()
    modifies store
    ensures store.Valid()
    ensures body.Failure? ==> resp == ErrorHandler(Api(BadRequest)) && store.users == old(store.users)
    ensures body.Success? && ObjectIdFromHex(id).None? ==>
      resp == Response(StatusBadRequest, Strings(map["error" := Message(ParseObjectId(id).error)])) && store.users == old(store.users)
    ensures body.Success? && ObjectIdFromHex(id).Some? ==>
      resp == Ok(Strings(map["message" := "user updated successfully", "id" := id])) &&
      |store.users| == |old(store.users)| &&
      forall i :: 0 <= i < |store.users| ==>
        store.users[i] == if old(store.users)[i].id == ObjectIdFromHex(id).value
                          then SetUser(old(store.users)[i], ToBSON(body.value)) else old(store.users)[i]
    ensures UniqueEmails(old(store.users)) ==> UniqueEmails(store.users)
  {
    if body.Failure? {
      return ErrorHandler(Api(BadRequest));
    }
    ghost var before := store.users;
    var err := store.UpdateUser(id, body.value);
    if err.Some? {
      return Response(StatusBadRequest, Strings(map["error" := Message(err.value)]));
    }
    EmailsKept(before, store.users, ToBSON(body.value));
    resp := Ok(Strings(map["message" := "user updated successfully", "id" := id]));
  }

  /** A `$set` of names only keeps every email, so it keeps emails unique. */
  lemma EmailsKept(before: seq<User>, after: seq<User>, u: map<string, Bson.Value>)
    requires "email" !in u
    requires |after| == |before|
    requires forall i :: 0 <= i < |before| ==> after[i] == before[i] || after[i] == SetUser(before[i], u)
    requires forall i, j :: 0 <= i < j < |after| ==> after[i].id != after[j].id
    ensures UniqueEmails(before) ==> UniqueEmails(after)
  {
    if UniqueEmails(before) {
      forall x, y | x in after && y in after && x.email == y.email ensures x == y {
        var i :| 0 <= i < |after| && after[i] == x;
        var j :| 0 <= j < |after| && after[j] == y;
        assert before[i].email == x.email && before[j].email == y.email;
        assert before[i] in before && before[j] in before;
        assert i == j;
      }
    }
  }
}
