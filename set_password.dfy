/**
 * POST /api/auth/set-password: an invited user redeems the token of the
 * invite link and chooses a password. The token is looked up, then three
 * guards run in order (unknown, already used, expired), and only then are
 * the user and the token written, together.
 */
module SetPasswordRoute {
  import opened Wrappers
  import opened Common
  import opened Db

  /** The validated body. */
  datatype Form = Form(token: string, password: string)

  const TokenRequired := "Token is required"

  /** `setPasswordSchema.safeParse`: a non-empty token, then a password of at least 6 characters. */
  function ParseForm(body: Json): (r: Result<Form, string>)
    ensures r.Success? ==>
      && body.JObj? && "token" in body.fields && "password" in body.fields
      && body.fields["token"] == JStr(r.value.token) && r.value.token != ""
      && body.fields["password"] == JStr(r.value.password) && JsLength(r.value.password) >= 6
    ensures (&& body.JObj? && "token" in body.fields && body.fields["token"].JStr? && body.fields["token"].s != ""
             && "password" in body.fields && body.fields["password"].JStr? && JsLength(body.fields["password"].s) >= 6)
            ==> r.Success?
    ensures body.JObj? && "token" in body.fields && body.fields["token"] == JStr("") ==> r == Failure(TokenRequired)
    ensures (&& body.JObj? && "token" in body.fields && body.fields["token"].JStr? && body.fields["token"].s != ""
             && "password" in body.fields && body.fields["password"].JStr? && JsLength(body.fields["password"].s) < 6)
            ==> r == Failure(PasswordTooShort)
  {
    if !body.JObj? then Failure(ExpectedObject)
    else
      match MinText(body.fields, "token", 1, TokenRequired)
      case Failure(e) => Failure(e)
      case Success(token) =>
        match MinText(body.fields, "password", 6, PasswordTooShort)
        case Failure(e) => Failure(e)
        case Success(password) => Success(Form(token, password))
  }

  /** Why a redemption is refused. `MissingUser` is the store error of updating a user that is gone. */
  datatype Refusal = UnknownToken | AlreadyUsed | Expired | MissingUser

  function RefusalStatus(e: Refusal): int {
    if e == MissingUser then InternalError else BadRequest
  }

  function RefusalMessage(e: Refusal): string {
    match e
    case UnknownToken => "Invalid or expired invite token"
    case AlreadyUsed => "This invite has already been used"
    case Expired => "This invite has expired"
    case MissingUser => ServerError
  }

  const PasswordSet := "Password set successfully. You can now log in."

  /**
   * The guard chain on the looked-up token, in the source's order. A used
   * token is refused as used whatever its expiry, and expiry is strict: a
   * token is still good at exactly `expiresAt`.
   */
  function Guard(tokens: map<string, InviteToken>, token: string, now: int): (r: Result<InviteToken, Refusal>)
    ensures r.Success? <==> token in tokens && !tokens[token].used && now <= tokens[token].expiresAt
    ensures r.Success? ==> r.value == tokens[token]
    ensures token !in tokens ==> r == Failure(UnknownToken)
    ensures token in tokens && tokens[token].used ==> r == Failure(AlreadyUsed)
    ensures token in tokens && !tokens[token].used && now > tokens[token].expiresAt ==> r == Failure(Expired)
  {
    if token !in tokens then Failure(UnknownToken)
    else if tokens[token].used then Failure(AlreadyUsed)
    else if now > tokens[token].expiresAt then Failure(Expired)
    else Success(tokens[token])
  }

  /**
   * The whole redemption on the store's tables: the guards, then the
   * transaction that sets the owner's password hash, clears its invited
   * flag and marks the token used. Nothing else is written.
   */
  function Redeem(t: Tables, form: Form, now: int, hash: string -> string): (r: Result<Tables, Refusal>)
    ensures r.Success? <==> Guard(t.tokens, form.token, now).Success? && t.tokens[form.token].userId in t.users
    ensures Guard(t.tokens, form.token, now).Failure? ==> r == Failure(Guard(t.tokens, form.token, now).error)
    ensures r.Success? ==>
      var invite := t.tokens[form.token];
      var owner := t.users[invite.userId];
      && r.value.users == t.users[invite.userId := owner.(password := Some(hash(form.password)), isInvited := false)]
      && r.value.tokens == t.tokens[form.token := invite.(used := true)]
      && r.value.profiles == t.profiles
  {
    match Guard(t.tokens, form.token, now)
    case Failure(e) => Failure(e)
    case Success(invite) =>
      if invite.userId !in t.users then Failure(MissingUser)
      else
        var owner := t.users[invite.userId];
        Success(t.(users := t.users[invite.userId := owner.(password := Some(hash(form.password)), isInvited := false)],
                   tokens := t.tokens[form.token := invite.(used := true)]))
  }

  /** A redemption keeps the store's constraints: e-mail addresses and token owners do not move. */
  lemma RedeemKeepsValid(t: Tables, form: Form, now: int, hash: string -> string)
    requires TablesValid(t)
    requires Redeem(t, form, now, hash).Success?
    ensures TablesValid(Redeem(t, form, now, hash).value)
  {
    var n := Redeem(t, form, now, hash).value;
    assert forall u :: u in n.users ==> u in t.users && n.users[u].email == t.users[u].email;
  }

  /** Replaying a redeemed token, with any password at any time, is refused as already used. */
  lemma ReplayFails(t: Tables, form: Form, now: int, again: Form, later: int, hash: string -> string)
    requires Redeem(t, form, now, hash).Success?
    requires again.token == form.token
    ensures Redeem(Redeem(t, form, now, hash).value, again, later, hash) == Failure(AlreadyUsed)
  {
  }

  /**
   * POST: a body that is not JSON gives 500, a schema failure 400 before
   * any lookup, a refused redemption its status and message with nothing
   * written; otherwise the store holds the redeemed tables.
   */
  method SetPassword(db: Store, body: Option<Json>, now: int, hash: string -> string) returns (r: Reply<string>)
    requires db.Valid()
    modifies db
    ensures db.Valid()
    ensures body.None? ==> r == Fail(InternalError, ServerError) && db.Snapshot() == old(db.Snapshot())
    ensures body.Some? && ParseForm(body.value).Failure? ==>
      r == Fail(BadRequest, ParseForm(body.value).error) && db.Snapshot() == old(db.Snapshot())
    ensures body.Some? && ParseForm(body.value).Success? ==>
      var outcome := Redeem(old(db.Snapshot()), ParseForm(body.value).value, now, hash);
      && (outcome.Success? ==> r == Ok(200, PasswordSet) && db.Snapshot() == outcome.value)
      && (outcome.Failure? ==>
            r == Fail(RefusalStatus(outcome.error), RefusalMessage(outcome.error))
            && db.Snapshot() == old(db.Snapshot()))
  {
    if body.None? {
      return Fail(InternalError, ServerError);
    }
    var parsed := ParseForm(body.value);
    if parsed.Failure? {
      return Fail(BadRequest, parsed.error);
    }
    var form := parsed.value;
    if form.token !in db.tokens {
      return Fail(BadRequest, RefusalMessage(UnknownToken));
    }
    var invite := db.tokens[form.token];
    if invite.used {
      return Fail(BadRequest, RefusalMessage(AlreadyUsed));
    }
    if now > invite.expiresAt {
      return Fail(BadRequest, RefusalMessage(Expired));
    }
    var hashed := hash(form.password);
    RedeemKeepsValid(db.Snapshot(), form, now, hash);
    // One transaction: the owner (present, since every token's owner is stored) and then the token.
    var owner := db.users[invite.userId];
    db.users := db.users[invite.userId := owner.(password := Some(hashed), isInvited := false)];
    db.tokens := db.tokens[form.token := invite.(used := true)];
    r := Ok(200, PasswordSet);
  }
}
