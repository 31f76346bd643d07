/**
 * POST /api/admin/invite: an administrator invites a new user by name and
 * e-mail address. The user is created without a password, flagged as
 * invited, with an empty profile and one invite token valid for seven days;
 * the reply carries the invite link.
 */
module InviteRoute {
  import opened Wrappers
  import opened Common
  import opened Profiles
  import opened Db

  /** Seven days in milliseconds. */
  const InviteLifetime := 7 * 24 * 60 * 60 * 1000

  /** The validated body. */
  datatype InviteForm = InviteForm(name: string, email: string)

  /** `inviteSchema.safeParse`: a name of at least 2 characters, then an e-mail address. */
  function ParseInvite(body: Json, isEmail: string -> bool): (r: Result<InviteForm, string>)
    ensures r.Success? ==>
      && body.JObj? && "name" in body.fields && "email" in body.fields
      && body.fields["name"] == JStr(r.value.name) && JsLength(r.value.name) >= 2
      && body.fields["email"] == JStr(r.value.email) && isEmail(r.value.email)
    ensures (&& body.JObj? && "name" in body.fields && body.fields["name"].JStr? && JsLength(body.fields["name"].s) >= 2
             && "email" in body.fields && body.fields["email"].JStr? && isEmail(body.fields["email"].s))
            ==> r.Success?
    ensures body.JObj? && "name" in body.fields && body.fields["name"].JStr? && JsLength(body.fields["name"].s) < 2
            ==> r == Failure(NameTooShort)
    ensures (&& body.JObj? && "name" in body.fields && body.fields["name"].JStr? && JsLength(body.fields["name"].s) >= 2
             && "email" in body.fields && body.fields["email"].JStr? && !isEmail(body.fields["email"].s))
            ==> r == Failure(InvalidEmail)
  {
    if !body.JObj? then Failure(ExpectedObject)
    else
      match MinText(body.fields, "name", 2, NameTooShort)
      case Failure(e) => Failure(e)
      case Success(name) =>
        match EmailText(body.fields, "email", isEmail, InvalidEmail)
        case Failure(e) => Failure(e)
        case Success(email) => Success(InviteForm(name, email))
  }

  /** The user row of an invitee: role SUB, no password, invited. */
  function Invitee(form: InviteForm, id: UserId): User {
    User(id, form.name, form.email, None, Sub, true)
  }

  /** The invite token row, issued at `now` (milliseconds) and unused. */
  function InviteFor(id: UserId, token: string, now: int): InviteToken {
    InviteToken(token, id, now + InviteLifetime, false)
  }

  /** The base of the link: the configured site URL, rendered as "undefined" by the template when unset. */
  function UrlBase(siteUrl: Option<string>): string {
    siteUrl.GetOr("undefined")
  }

  /** The invite link: the site URL, then "/invite/", then the raw token. */
  function InviteUrl(siteUrl: Option<string>, token: string): (url: string)
    ensures |url| == |UrlBase(siteUrl)| + 8 + |token|
    ensures url[..|UrlBase(siteUrl)|] == UrlBase(siteUrl)
    ensures url[|UrlBase(siteUrl)|..|UrlBase(siteUrl)| + 8] == "/invite/"
    ensures url[|UrlBase(siteUrl)| + 8..] == token
  {
    UrlBase(siteUrl) + "/invite/" + token
  }

  /** The success body: a message, the link and the public part of the new user. */
  datatype Invitation = Invitation(message: string, inviteUrl: string, user: PublicUser)

  /**
   * POST: 401 without a signed-in user and 403 for a non-admin, both before
   * the body is read; 500 for a body that is not JSON; 400 for a schema
   * failure or an address already registered. Otherwise the user, its empty
   * profile and its token are inserted together (a refused insert is 500).
   * `newId`, `token`, `now` and `siteUrl` come from the store's id
   * generator, the random generator, the clock and the environment.
   */
  method Invite(db: Store, session: Option<Session>, body: Option<Json>, newId: UserId, token: string,
                now: int, siteUrl: Option<string>, isEmail: string -> bool)
    returns (r: Reply<Invitation>)
    requires db.Valid()
    modifies db
    ensures db.Valid()
    ensures !SignedIn(session) ==> r == Fail(Unauthorized, "Unauthorized") && db.Snapshot() == old(db.Snapshot())
    ensures SignedIn(session) && session.value.role != Admin ==>
      r == Fail(Forbidden, "Forbidden") && db.Snapshot() == old(db.Snapshot())
    ensures SignedInAdmin(session) && body.None? ==>
      r == Fail(InternalError, ServerError) && db.Snapshot() == old(db.Snapshot())
    ensures SignedInAdmin(session) && body.Some? && ParseInvite(body.value, isEmail).Failure? ==>
      r == Fail(BadRequest, ParseInvite(body.value, isEmail).error) && db.Snapshot() == old(db.Snapshot())
    ensures SignedInAdmin(session) && body.Some? && ParseInvite(body.value, isEmail).Success?
            && EmailTaken(old(db.users), ParseInvite(body.value, isEmail).value.email) ==>
      r == Fail(BadRequest, EmailInUse) && db.Snapshot() == old(db.Snapshot())
    ensures SignedInAdmin(session) && body.Some? && ParseInvite(body.value, isEmail).Success?
            && !EmailTaken(old(db.users), ParseInvite(body.value, isEmail).value.email) ==>
      var user := Invitee(ParseInvite(body.value, isEmail).value, newId);
      var inserted := Insert(old(db.Snapshot()), user, EmptyProfile, Some(InviteFor(newId, token, now)));
      && (inserted.Some? ==>
            && r == Ok(200, Invitation("User invited successfully", InviteUrl(siteUrl, token), Public(user)))
            && db.Snapshot() == inserted.value)
      && (inserted.None? ==> r == Fail(InternalError, ServerError) && db.Snapshot() == old(db.Snapshot()))
    ensures r.Ok? ==>
      && newId in db.users && db.users[newId].role == Sub && db.users[newId].password.None? && db.users[newId].isInvited
      && UsersWithEmail(db.users, db.users[newId].email) == {newId}
      && db.profiles[newId] == EmptyProfile
      && TokensOf(db.tokens, newId) == {token}
      && db.tokens[token].expiresAt == now + InviteLifetime && !db.tokens[token].used
  {
    if !SignedIn(session) {
      return Fail(Unauthorized, "Unauthorized");
    }
    if session.value.role != Admin {
      return Fail(Forbidden, "Forbidden");
    }
    if body.None? {
      return Fail(InternalError, ServerError);
    }
    var parsed := ParseInvite(body.value, isEmail);
    if parsed.Failure? {
      return Fail(BadRequest, parsed.error);
    }
    var form := parsed.value;
    if EmailTaken(db.users, form.email) {
      return Fail(BadRequest, EmailInUse);
    }
    var user := Invitee(form, newId);
    var invite := InviteFor(newId, token, now);
    ghost var before := db.Snapshot();
    EmptyProfileInvariant();
    var ok := db.CreateUser(user, EmptyProfile, Some(invite));
    if !ok {
      return Fail(InternalError, ServerError);
    }
    InsertKeepsValid(before, user, EmptyProfile, Some(invite));
    r := Ok(200, Invitation("User invited successfully", InviteUrl(siteUrl, token), Public(user)));
  }
}
