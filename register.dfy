/**
 * POST /api/auth/register: self-registration with name, e-mail address and
 * password. The user is created with role SUB, the password hash and an
 * empty profile; store errors are mapped to status codes.
 */
module RegisterRoute {
  import opened Wrappers
  import opened Common
  import opened Profiles
  import opened Db

  /** The validated body. */
  datatype RegisterForm = RegisterForm(name: string, email: string, password: string)

  /** `registerSchema.safeParse`: name, then e-mail address, then password, first issue reported. */
  function ParseRegister(body: Json, isEmail: string -> bool): (r: Result<RegisterForm, string>)
    ensures r.Success? ==>
      && body.JObj? && "name" in body.fields && "email" in body.fields && "password" in body.fields
      && body.fields["name"] == JStr(r.value.name) && JsLength(r.value.name) >= 2
      && body.fields["email"] == JStr(r.value.email) && isEmail(r.value.email)
      && body.fields["password"] == JStr(r.value.password) && JsLength(r.value.password) >= 6
    ensures (&& body.JObj? && "name" in body.fields && body.fields["name"].JStr? && JsLength(body.fields["name"].s) >= 2
             && "email" in body.fields && body.fields["email"].JStr? && isEmail(body.fields["email"].s)
             && "password" in body.fields && body.fields["password"].JStr? && JsLength(body.fields["password"].s) >= 6)
            ==> r.Success?
    ensures body.JObj? && "name" in body.fields && body.fields["name"].JStr? && JsLength(body.fields["name"].s) < 2
            ==> r == Failure(NameTooShort)
    ensures (&& body.JObj? && "name" in body.fields && body.fields["name"].JStr? && JsLength(body.fields["name"].s) >= 2
             && "email" in body.fields && body.fields["email"].JStr? && !isEmail(body.fields["email"].s))
            ==> r == Failure(InvalidEmail)
    ensures (&& body.JObj? && "name" in body.fields && body.fields["name"].JStr? && JsLength(body.fields["name"].s) >= 2
             && "email" in body.fields && body.fields["email"].JStr? && isEmail(body.fields["email"].s)
             && "password" in body.fields && body.fields["password"].JStr? && JsLength(body.fields["password"].s) < 6)
            ==> r == Failure(PasswordTooShort)
  {
    if !body.JObj? then Failure(ExpectedObject)
    else
      match MinText(body.fields, "name", 2, NameTooShort)
      case Failure(e) => Failure(e)
      case Success(name) =>
        match EmailText(body.fields, "email", isEmail, InvalidEmail)
        case Failure(e) => Failure(e)
        case Success(email) =>
          match MinText(body.fields, "password", 6, PasswordTooShort)
          case Failure(e) => Failure(e)
          case Success(password) => Success(RegisterForm(name, email, password))
  }

  /** The user row of a self-registered member: role SUB, the password hash, not invited. */
  function Member(form: RegisterForm, id: UserId, hash: string -> string): User {
    User(id, form.name, form.email, Some(hash(form.password)), Sub, false)
  }

  /** The message of a unique-constraint violation during the create (Prisma error P2002). */
  const EmailConflict := "User with this email already exists."

  /** The success body. */
  datatype Registration = Registration(message: string, user: PublicUser)

  /**
   * POST: 500 for a body that is not JSON, 400 for a schema failure or an
   * address the pre-check finds, 409 when the store refuses the insert on a
   * unique constraint, 201 with the public part of the user otherwise.
   */
  method Register(db: Store, body: Option<Json>, newId: UserId, hash: string -> string, isEmail: string -> bool)
    returns (r: Reply<Registration>)
    requires db.Valid()
    modifies db
    ensures db.Valid()
    ensures body.None? ==> r == Fail(InternalError, ServerError) && db.Snapshot() == old(db.Snapshot())
    ensures body.Some? && ParseRegister(body.value, isEmail).Failure? ==>
      r == Fail(BadRequest, ParseRegister(body.value, isEmail).error) && db.Snapshot() == old(db.Snapshot())
    ensures body.Some? && ParseRegister(body.value, isEmail).Success?
            && EmailTaken(old(db.users), ParseRegister(body.value, isEmail).value.email) ==>
      r == Fail(BadRequest, EmailInUse) && db.Snapshot() == old(db.Snapshot())
    ensures body.Some? && ParseRegister(body.value, isEmail).Success?
            && !EmailTaken(old(db.users), ParseRegister(body.value, isEmail).value.email) ==>
      var user := Member(ParseRegister(body.value, isEmail).value, newId, hash);
      var inserted := Insert(old(db.Snapshot()), user, EmptyProfile, None);
      && (inserted.Some? ==>
            r == Ok(201, Registration("User created successfully", Public(user))) && db.Snapshot() == inserted.value)
      && (inserted.None? ==> r == Fail(Conflict, EmailConflict) && db.Snapshot() == old(db.Snapshot()))
    ensures r.Ok? ==>
      && newId in db.users && db.users[newId].role == Sub && !db.users[newId].isInvited
      && db.users[newId].password == Some(hash(ParseRegister(body.value, isEmail).value.password))
      && UsersWithEmail(db.users, db.users[newId].email) == {newId}
      && db.profiles[newId] == EmptyProfile
      && db.tokens == old(db.tokens)
  {
    if body.None? {
      return Fail(InternalError, ServerError);
    }
    var parsed := ParseRegister(body.value, isEmail);
    if parsed.Failure? {
      return Fail(BadRequest, parsed.error);
    }
    var form := parsed.value;
    if EmailTaken(db.users, form.email) {
      return Fail(BadRequest, EmailInUse);
    }
    var user := Member(form, newId, hash);
    ghost var before := db.Snapshot();
    EmptyProfileInvariant();
    var ok := db.CreateUser(user, EmptyProfile, None);
    if !ok {
      return Fail(Conflict, EmailConflict);
    }
    InsertKeepsValid(before, user, EmptyProfile, None);
    r := Ok(201, Registration("User created successfully", Public(user)));
  }
}
