/**
 * The signed-in user's profile page: redirect guards, the display name, the
 * address line and the rows shown only for set values.
 */
module ProfilePage {
  import opened Wrappers
  import opened Common
  import opened Profiles
  import opened Db

  /** The rendered page: a redirect, or the profile card. */
  datatype Page = Redirect(target: string) | Card(view: View)

  /** What the card shows; an optional row is `None` when it is not rendered. */
  datatype View = View(
    fullName: string,
    email: string,
    role: string,
    adminLink: bool,
    dateOfBirth: Option<string>,
    bio: Option<string>,
    phone: Option<string>,
    address: Option<string>)

  /**
   * The full name: when either name is set, first and last name with one
   * space between them (each "" when unset); otherwise the account name.
   */
  function DisplayName(first: Option<string>, last: Option<string>, accountName: string): (r: string)
    ensures !TruthyText(first) && !TruthyText(last) ==> r == accountName
    ensures TruthyText(first) || TruthyText(last) ==>
      && |r| == |OrElse(first, "")| + 1 + |OrElse(last, "")|
      && r[..|OrElse(first, "")|] == OrElse(first, "")
      && r[|OrElse(first, "")|] == ' '
      && r[|OrElse(first, "")| + 1..] == OrElse(last, "")
  {
    if TruthyText(first) || TruthyText(last) then OrElse(first, "") + " " + OrElse(last, "")
    else accountName
  }

  /** `cond && text` in JSX: the text when the value is set, nothing otherwise. */
  function Part(v: Option<string>, prefix: string): (r: string)
    ensures TruthyText(v) ==> r == prefix + v.value
    ensures !TruthyText(v) ==> r == ""
  {
    if TruthyText(v) then prefix + v.value else ""
  }

  /**
   * The address row: absent unless the address is set; otherwise the
   * address, then ", city", " postalCode" and ", country", each only when set.
   */
  function AddressLine(address: Option<string>, city: Option<string>, postalCode: Option<string>,
                       country: Option<string>): (r: Option<string>)
    ensures r.Some? <==> TruthyText(address)
    ensures r.Some? ==>
      && |r.value| == |address.value| + |Part(city, ", ")| + |Part(postalCode, " ")| + |Part(country, ", ")|
      && r.value[..|address.value|] == address.value
    ensures r.Some? ==>
      var cityEnd := |address.value| + |Part(city, ", ")|;
      var postalEnd := cityEnd + |Part(postalCode, " ")|;
      && r.value[|address.value|..cityEnd] == Part(city, ", ")
      && r.value[cityEnd..postalEnd] == Part(postalCode, " ")
      && r.value[postalEnd..] == Part(country, ", ")
    ensures r.Some? && !TruthyText(city) && !TruthyText(postalCode) && !TruthyText(country) ==>
      r.value == address.value
  {
    if TruthyText(address) then Some(address.value + Part(city, ", ") + Part(postalCode, " ") + Part(country, ", "))
    else None
  }

  /** A text column of the profile row; null when there is no row or the column is not a string. */
  function Column(profile: Option<Profile>, key: string): Option<string> {
    if profile.Some? && key in profile.value.other && profile.value.other[key].JStr?
    then Some(profile.value.other[key].s) else None
  }

  /** A conditional row: shown with its text only when the value is set. */
  function Row(v: Option<string>): (r: Option<string>)
    ensures r.Some? <==> TruthyText(v)
    ensures r.Some? ==> r.value == v.value
  {
    if TruthyText(v) then v else None
  }

  /**
   * The page for a request: no signed-in user, or a user missing from the
   * store, redirects to /login. Otherwise the card, with the Admin link iff
   * the session's role is ADMIN. `formatDate` is the locale date formatting.
   */
  function Render(session: Option<Session>, users: map<UserId, User>, profiles: map<UserId, Profile>,
                  formatDate: string -> string): (page: Page)
    ensures !SignedIn(session) ==> page == Redirect("/login")
    ensures SignedIn(session) && session.value.userId !in users ==> page == Redirect("/login")
    ensures SignedIn(session) && session.value.userId in users ==> page.Card?
    ensures SignedIn(session) && session.value.userId in users && session.value.userId !in profiles ==>
      && page.view.fullName == users[session.value.userId].name
      && page.view.phone.None? && page.view.address.None? && page.view.bio.None? && page.view.dateOfBirth.None?
    ensures page.Card? ==>
      && SignedIn(session) && session.value.userId in users
      && (page.view.adminLink <==> session.value.role == Admin)
      && page.view.email == users[session.value.userId].email
      && page.view.role == RoleName(users[session.value.userId].role)
  {
    if !SignedIn(session) || session.value.userId !in users then Redirect("/login")
    else
      var uid := session.value.userId;
      var user := users[uid];
      var profile := if uid in profiles then Some(profiles[uid]) else None;
      var first := if profile.Some? then profile.value.firstName.value else None;
      var last := if profile.Some? then profile.value.lastName.value else None;
      var birth := Row(Column(profile, "dateOfBirth"));
      Card(View(
        DisplayName(first, last, user.name),
        user.email,
        RoleName(user.role),
        session.value.role == Admin,
        if birth.Some? then Some(formatDate(birth.value)) else None,
        Row(Column(profile, "bio")),
        Row(if profile.Some? then profile.value.phone.value else None),
        AddressLine(if profile.Some? then profile.value.address.value else None,
                    Column(profile, "city"), Column(profile, "postalCode"), Column(profile, "country"))))
  }

  /**
   * The card's rows follow the stored profile: each optional row is shown
   * exactly when its column is set, and the name falls back to the account
   * name only when neither name is set.
   */
  lemma CardRows(session: Option<Session>, users: map<UserId, User>, profiles: map<UserId, Profile>,
                 formatDate: string -> string)
    requires SignedIn(session) && session.value.userId in users && session.value.userId in profiles
    ensures var p := profiles[session.value.userId];
      var v := Render(session, users, profiles, formatDate).view;
      && (v.phone.Some? <==> TruthyText(p.phone.value))
      && (v.address.Some? <==> TruthyText(p.address.value))
      && (v.bio.Some? <==> TruthyText(Column(Some(p), "bio")))
      && (v.dateOfBirth.Some? <==> TruthyText(Column(Some(p), "dateOfBirth")))
      && (!TruthyText(p.firstName.value) && !TruthyText(p.lastName.value) ==>
            v.fullName == users[session.value.userId].name)
  {
  }
}
