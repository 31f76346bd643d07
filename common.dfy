/**
 * Values shared by every route: the session handed out by the identity
 * provider, JSON request bodies, JavaScript truthiness and HTTP replies.
 */
module Common {
  import opened Wrappers

  datatype Role = Admin | Sub

  function RoleName(r: Role): string {
    match r
    case Admin => "ADMIN"
    case Sub => "SUB"
  }

  /** What the session library returns for a request: the user id and role. */
  datatype Session = Session(userId: string, role: Role)

  /** `session?.user?.id` is truthy: there is a session and its id is not empty. */
  predicate SignedIn(session: Option<Session>) {
    session.Some? && session.value.userId != ""
  }

  /** The admin gate of the admin routes: signed in and role ADMIN. */
  predicate SignedInAdmin(session: Option<Session>) {
    SignedIn(session) && session.value.role == Admin
  }

  /** A parsed JSON value. A request whose body is not JSON is modelled as `None` at the call site. */
  datatype Json =
    | JNull
    | JBool(b: bool)
    | JNum(n: int)
    | JStr(s: string)
    | JArr(items: seq<Json>)
    | JObj(fields: map<string, Json>)

  /** JavaScript truthiness of a JSON value. */
  predicate Truthy(v: Json) {
    match v
    case JNull => false
    case JBool(b) => b
    case JNum(n) => n != 0
    case JStr(s) => s != ""
    case JArr(_) => true
    case JObj(_) => true
  }

  /** JavaScript truthiness of a nullable text column. */
  predicate TruthyText(s: Option<string>) {
    s.Some? && s.value != ""
  }

  /** `s || fallback` on a nullable text value: the fallback replaces null and the empty string. */
  function OrElse(s: Option<string>, fallback: string): (r: string)
    ensures TruthyText(s) ==> r == s.value
    ensures !TruthyText(s) ==> r == fallback
  {
    if TruthyText(s) then s.value else fallback
  }

  /** A route's answer: a success body with its status, or an error message with its status. */
  datatype Reply<+T> = Ok(status: int, body: T) | Fail(status: int, message: string)

  const BadRequest := 400
  const Unauthorized := 401
  const Forbidden := 403
  const NotFound := 404
  const Conflict := 409
  const InternalError := 500

  /** The message of every `catch` block of the API routes. */
  const ServerError := "Internal server error"

  /** The message the model reports for a body that is not a JSON object. */
  const ExpectedObject := "Expected object"
  /** The message zod reports for a missing key. */
  const Required := "Required"
  /** The message the model reports for a present key of the wrong JSON type. */
  const ExpectedString := "Expected string"

  /** Reads a required `z.string()` key of an object body. */
  function TextField(fields: map<string, Json>, key: string): (r: Result<string, string>)
    ensures r.Success? <==> key in fields && fields[key].JStr?
    ensures r.Success? ==> fields[key] == JStr(r.value)
    ensures key !in fields ==> r == Failure(Required)
  {
    if key !in fields then Failure(Required)
    else if fields[key].JStr? then Success(fields[key].s)
    else Failure(ExpectedString)
  }

  /** A character JavaScript stores as a surrogate pair: one above U+FFFF. */
  predicate Astral(c: char) {
    c as int > 0xFFFF
  }

  /**
   * JavaScript's `.length`, which zod's `min` compares: UTF-16 code units,
   * so a character above U+FFFF counts twice.
   */
  function JsLength(s: string): (n: nat)
    ensures |s| <= n <= 2 * |s|
  {
    if s == [] then 0 else (if Astral(s[0]) then 2 else 1) + JsLength(s[1..])
  }

  /** The length counts one unit per character exactly when no character is astral. */
  lemma {:induction false} JsLengthIsSize(s: string)
    ensures JsLength(s) == |s| <==> forall i :: 0 <= i < |s| ==> !Astral(s[i])
  {
    if s != [] {
      JsLengthIsSize(s[1..]);
      if forall i :: 0 <= i < |s[1..]| ==> !Astral(s[1..][i]) {
        if !Astral(s[0]) {
          forall i | 0 <= i < |s| ensures !Astral(s[i]) {
            if i > 0 { assert s[i] == s[1..][i - 1]; }
          }
        }
      } else {
        var i :| 0 <= i < |s[1..]| && Astral(s[1..][i]);
        assert Astral(s[i + 1]);
      }
    }
  }

  /** One emoji is two code units long: it fails `min(2)` only in a code-point count. */
  lemma EmojiIsTwoUnits()
    ensures JsLength("\U{1F600}") == 2 && |"\U{1F600}"| == 1
  {
  }

  /** A required `z.string().min(n, message)` key, with the length in UTF-16 code units. */
  function MinText(fields: map<string, Json>, key: string, n: nat, message: string): (r: Result<string, string>)
    ensures r.Success? <==> key in fields && fields[key].JStr? && JsLength(fields[key].s) >= n
    ensures r.Success? ==> fields[key] == JStr(r.value)
    ensures key in fields && fields[key].JStr? && JsLength(fields[key].s) < n ==> r == Failure(message)
    ensures key !in fields ==> r == Failure(Required)
  {
    match TextField(fields, key)
    case Failure(e) => Failure(e)
    case Success(s) => if JsLength(s) < n then Failure(message) else Success(s)
  }

  /** A required `z.string().email(message)` key; the address check itself is the parameter `isEmail`. */
  function EmailText(fields: map<string, Json>, key: string, isEmail: string -> bool, message: string)
    : (r: Result<string, string>)
    ensures r.Success? <==> key in fields && fields[key].JStr? && isEmail(fields[key].s)
    ensures r.Success? ==> fields[key] == JStr(r.value)
    ensures key in fields && fields[key].JStr? && !isEmail(fields[key].s) ==> r == Failure(message)
    ensures key !in fields ==> r == Failure(Required)
  {
    match TextField(fields, key)
    case Failure(e) => Failure(e)
    case Success(s) => if !isEmail(s) then Failure(message) else Success(s)
  }

  const NameTooShort := "Name must be at least 2 characters"
  const InvalidEmail := "Invalid email address"
  const PasswordTooShort := "Password must be at least 6 characters"
  const EmailInUse := "User with this email already exists"
}
