/**
 * types/user.go: users, registration parameters and their validation
 * rules, partial updates, and password hashing.
 */
module UserTypes {
  import opened Wrappers
  import opened ObjectIds
  import opened GoTime
  import opened Bson

  const BcryptCost: nat := 12
  /** bcrypt.DefaultCost */
  const DefaultCost: nat := 10
  /** bcrypt refuses to hash passwords longer than this. */
  const BcryptMaxLength: nat := 72
  const PasswordTooLong: string := "bcrypt: password length exceeds 72 bytes"

  /**
   * A bcrypt hash, kept symbolic: the model knows which password and cost
   * produced it and nothing else, so two different passwords never share
   * a hash and the hash is never the plaintext itself.
   */
  datatype PasswordHash = Bcrypt(cost: nat, password: string)

  /** bcrypt.GenerateFromPassword */
  function GenerateFromPassword(password: string, cost: nat): (r: Result<PasswordHash, string>)
    ensures r.Success? <==> |password| <= BcryptMaxLength
    ensures r.Failure? ==> r.error == PasswordTooLong
    ensures r.Success? ==> CompareHashAndPassword(r.value, password)
    ensures r.Success? ==> forall other :: other != password ==> !CompareHashAndPassword(r.value, other)
  {
    if |password| > BcryptMaxLength then Failure(PasswordTooLong) else Success(Bcrypt(cost, password))
  }

  /** bcrypt.CompareHashAndPassword(...) == nil */
  predicate CompareHashAndPassword(hashed: PasswordHash, password: string) {
    hashed.password == password
  }

  /** ValidatePassword */
  predicate ValidatePassword(hashed: PasswordHash, password: string) {
    CompareHashAndPassword(hashed, password)
  }

  /** HashPassword: bcrypt at the default cost. */
  function HashPassword(password: string): (r: Result<PasswordHash, string>)
    ensures r.Success? ==> ValidatePassword(r.value, password) && r.value.cost == DefaultCost
  {
    GenerateFromPassword(password, DefaultCost)
  }

  datatype User = User(
    id: ObjectId,
    firstName: string,
    lastName: string,
    email: string,
    encryptedPassword: PasswordHash,
    isAdmin: bool,
    createdAt: Time)

  /** The stored document; the password hash is not a filterable field here. */
  function UserDoc(u: User): Doc {
    map[
      "_id" := Oid(u.id),
      "firstName" := Str(u.firstName),
      "lastName" := Str(u.lastName),
      "email" := Str(u.email),
      "isAdmin" := Bool(u.isAdmin),
      "createdAt" := Date(u.createdAt)]
  }

  /** `$set: u` on a stored user: named fields change, `_id` and the hash do not. */
  function SetUser(user: User, u: Doc): (r: User)
    ensures r.id == user.id && r.encryptedPassword == user.encryptedPassword
  {
    user.(
      firstName := if "firstName" in u && u["firstName"].Str? then u["firstName"].s else user.firstName,
      lastName := if "lastName" in u && u["lastName"].Str? then u["lastName"].s else user.lastName,
      email := if "email" in u && u["email"].Str? then u["email"].s else user.email,
      isAdmin := if "isAdmin" in u && u["isAdmin"].Bool? then u["isAdmin"].b else user.isAdmin,
      createdAt := if "createdAt" in u && u["createdAt"].Date? then u["createdAt"].t else user.createdAt)
  }

  datatype CreateUserParams = CreateUserParams(
    firstName: string,
    lastName: string,
    email: string,
    password: string)

  /** The message validation.go builds for a failed rule. */
  function RuleMessage(tag: string, param: string): string {
    if param == "" then "failed on rule '" + tag + "'"
    else "failed on rule '" + tag + "' (param: " + param + ")"
  }

  /** `validate:"required,min=2,max=50"`: the first rule the value breaks. */
  function NameRule(s: string): Option<string> {
    if |s| == 0 then Some(RuleMessage("required", ""))
    else if |s| < 2 then Some(RuleMessage("min", "2"))
    else if |s| > 50 then Some(RuleMessage("max", "50"))
    else None
  }

  /** `validate:"required,email"`; the syntax verdict of the email rule is an input. */
  function EmailRule(s: string, emailSyntaxOk: bool): Option<string> {
    if |s| == 0 then Some(RuleMessage("required", ""))
    else if !emailSyntaxOk then Some(RuleMessage("email", ""))
    else None
  }

  /** `validate:"required,min=7"` */
  function PasswordRule(s: string): Option<string> {
    if |s| == 0 then Some(RuleMessage("required", ""))
    else if |s| < 7 then Some(RuleMessage("min", "7"))
    else None
  }

  function Put(m: map<string, string>, k: string, e: Option<string>): map<string, string> {
    if e.Some? then m[k := e.value] else m
  }

  /**
   * ValidateRequest applied to CreateUserParams: one entry per field whose
   * tag rules fail, keyed by the struct field name. The parameters are
   * accepted exactly when both names have 2 to 50 characters, the email is
   * present and well formed, and the password has at least 7 characters.
   */
  function ValidateCreateUserParams(p: CreateUserParams, emailSyntaxOk: bool): (errors: map<string, string>)
    ensures errors.Keys <= {"FirstName", "LastName", "Email", "Password"}
    ensures "FirstName" in errors <==> !(2 <= |p.firstName| <= 50)
    ensures "LastName" in errors <==> !(2 <= |p.lastName| <= 50)
    ensures "Email" in errors <==> |p.email| == 0 || !emailSyntaxOk
    ensures "Password" in errors <==> |p.password| < 7
    ensures errors == map[] <==>
      2 <= |p.firstName| <= 50 && 2 <= |p.lastName| <= 50 &&
      |p.email| > 0 && emailSyntaxOk && |p.password| >= 7
  {
    var e0: map<string, string> := map[];
    var e1 := Put(e0, "FirstName", NameRule(p.firstName));
    var e2 := Put(e1, "LastName", NameRule(p.lastName));
    var e3 := Put(e2, "Email", EmailRule(p.email, emailSyntaxOk));
    var e4 := Put(e3, "Password", PasswordRule(p.password));
    assert e4 == map[] ==> "FirstName" !in e4;
    e4
  }

  /**
   * NewUserFromParams: a user carrying the request's names and email, the
   * bcrypt hash of its password, no id and no admin right; it fails only
   * when bcrypt refuses the password.
   */
  function NewUserFromParams(p: CreateUserParams, now: Time): (r: Result<User, string>)
    ensures r.Success? <==> |p.password| <= BcryptMaxLength
    ensures r.Success? ==>
      && r.value.firstName == p.firstName
      && r.value.lastName == p.lastName
      && r.value.email == p.email
      && r.value.id == NilObjectId
      && !r.value.isAdmin
      && r.value.createdAt == now
      && ValidatePassword(r.value.encryptedPassword, p.password)
      && r.value.encryptedPassword.cost == BcryptCost
  {
    match GenerateFromPassword(p.password, BcryptCost)
    case Failure(e) => Failure(e)
    case Success(h) => Success(User(NilObjectId, p.firstName, p.lastName, p.email, h, false, now))
  }

  datatype UpdateUserParams = UpdateUserParams(firstName: string, lastName: string)

  /**
   * UpdateUserParams.ToBSON: "firstName" and "lastName" are present exactly
   * when the corresponding parameter is non-empty, and hold it; no other key.
   */
  function ToBSON(p: UpdateUserParams): (m: Doc)
    ensures "firstName" in m <==> |p.firstName| > 0
    ensures "firstName" in m ==> m["firstName"] == Str(p.firstName)
    ensures "lastName" in m <==> |p.lastName| > 0
    ensures "lastName" in m ==> m["lastName"] == Str(p.lastName)
    ensures m.Keys <= {"firstName", "lastName"}
    ensures p == UpdateUserParams("", "") ==> m == map[]
  {
    var m0: Doc := map[];
    var m1 := if |p.firstName| > 0 then m0["firstName" := Str(p.firstName)] else m0;
    if |p.lastName| > 0 then m1["lastName" := Str(p.lastName)] else m1
  }

  /** Applying ToBSON as a $set changes exactly the non-empty names. */
  lemma UpdateChangesOnlyGivenNames(user: User, p: UpdateUserParams)
    ensures SetUser(user, ToBSON(p)).firstName == if |p.firstName| > 0 then p.firstName else user.firstName
    ensures SetUser(user, ToBSON(p)).lastName == if |p.lastName| > 0 then p.lastName else user.lastName
    ensures SetUser(user, ToBSON(p)).(firstName := user.firstName, lastName := user.lastName) == user
  {
  }
}
