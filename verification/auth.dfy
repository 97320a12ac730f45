/** The pure decisions of the authentication service: token validity,
    the driver-role test, request headers and the sign-in outcome. */
module AuthService {
  import opened Wrappers

  const DriverRole := "ROLE_DRIVER"
  const ContentTypeHeader := "Content-Type"
  const AuthorizationHeader := "Authorization"
  const JsonMediaType := "application/json"
  const InvalidCredentials := "Invalid email or password"
  const DriversOnly := "Only drivers can sign in to this application"

  /** The signed-in user; `roles` is `None` when the field is missing. */
  datatype AuthUser = AuthUser(id: int, email: string, token: string, roles: Option<seq<string>>)

  datatype Driver = Driver(
    userId: int,
    driverId: int,
    fullName: string,
    city: string,
    country: string,
    phone: string,
    dni: string)

  /** The persisted session; `user` is `None` when the stored record lacks it.
      `expiresAt` is a time in milliseconds. */
  datatype AuthData = AuthData(user: Option<AuthUser>, driver: Option<Driver>, expiresAt: Option<int>)

  /** There is a user with a non-empty token. */
  predicate HasToken(auth: Option<AuthData>) {
    auth.Some? && auth.value.user.Some? && auth.value.user.value.token != []
  }

  /** `expiresAt` is truthy: present and not 0. */
  predicate Expires(a: AuthData) { a.expiresAt.Some? && a.expiresAt.value != 0 }

  /** `isTokenValid` at time `now` (the value of `Date.now()`). */
  function IsTokenValid(auth: Option<AuthData>, now: int): (valid: bool)
    ensures !HasToken(auth) ==> !valid
    ensures HasToken(auth) && Expires(auth.value) ==> (valid <==> now < auth.value.expiresAt.value)
    ensures HasToken(auth) && !Expires(auth.value) ==> valid
  {
    if auth.None? || auth.value.user.None? || auth.value.user.value.token == [] then false
    else if auth.value.expiresAt.Some? && auth.value.expiresAt.value != 0 then now < auth.value.expiresAt.value
    else true
  }

  /** Once a session is judged invalid it stays invalid at every later time. */
  lemma InvalidStaysInvalid(auth: Option<AuthData>, now: int, later: int)
    requires now <= later
    requires !IsTokenValid(auth, now)
    ensures !IsTokenValid(auth, later)
  {
  }

  /** A session valid at some time is invalid from its expiry on. */
  lemma ValidUntilExpiry(auth: Option<AuthData>, t: int, later: int)
    requires IsTokenValid(auth, t) && Expires(auth.value)
    requires later >= auth.value.expiresAt.value
    ensures !IsTokenValid(auth, later)
  {
  }

  function HasDriverRole(roles: seq<string>): bool {
    exists i | 0 <= i < |roles| :: roles[i] == DriverRole
  }

  /** `isDriver`: the roles contain the driver role; anything missing gives false. */
  function IsDriver(auth: Option<AuthData>): (r: bool)
    ensures r <==> auth.Some? && auth.value.user.Some? && auth.value.user.value.roles.Some?
                   && DriverRole in auth.value.user.value.roles.value
  {
    auth.Some? && auth.value.user.Some? && auth.value.user.value.roles.Some?
    && HasDriverRole(auth.value.user.value.roles.value)
  }

  /** `getHeaders(token)`: always JSON, plus a bearer header for a truthy token. */
  function GetHeaders(token: Option<string>): (h: map<string, string>)
    ensures ContentTypeHeader in h && h[ContentTypeHeader] == JsonMediaType
    ensures AuthorizationHeader in h <==> token.Some? && token.value != []
    ensures AuthorizationHeader in h ==> h[AuthorizationHeader] == "Bearer " + token.value
    ensures h.Keys <= {ContentTypeHeader, AuthorizationHeader}
  {
    var base := map[ContentTypeHeader := JsonMediaType];
    if token.Some? && token.value != [] then base[AuthorizationHeader := "Bearer " + token.value]
    else base
  }

  /** What `response.json()` gave for an error reply: no JSON at all (the
      `catch` turns it into `{}`), or an object whose `message` may be missing
      (`None`) or empty. */
  datatype ErrorBody = NotJson | ErrorObject(message: Option<string>)

  /** The failures `signIn` raises. */
  datatype SignInError =
    | Rejected(message: string)      // an `Error` with this message
    | MalformedBody                  // the success body is not JSON: a SyntaxError
    | MissingRoles                   // `data.roles.includes` on a missing field: a TypeError

  /** The sign-in reply: its `ok` flag, the parsed error body, and the parsed success body. */
  datatype SignInReply = SignInReply(ok: bool, error: ErrorBody, data: Option<AuthUser>)

  function ServerMessage(b: ErrorBody): Option<string> {
    if b.ErrorObject? && b.message.Some? && b.message.value != [] then b.message else None
  }

  /** The decision `signIn` takes once the reply is in. */
  function SignInOutcome(reply: SignInReply): (r: Result<AuthUser, SignInError>)
    ensures !reply.ok ==> r == Failure(Rejected(ServerMessage(reply.error).GetOr(InvalidCredentials)))
    ensures r.Success? ==> reply.ok && reply.data == Some(r.value)
    ensures r.Success? ==> IsDriver(Some(AuthData(Some(r.value), None, None)))
    ensures (reply.ok && reply.data.Some? && reply.data.value.roles.Some?
             && DriverRole in reply.data.value.roles.value) ==> r.Success?
    ensures reply.ok && reply.data.None? ==> r == Failure(MalformedBody)
    ensures reply.ok && reply.data.Some? && reply.data.value.roles.None? ==> r == Failure(MissingRoles)
    ensures (reply.ok && reply.data.Some? && reply.data.value.roles.Some?
             && DriverRole !in reply.data.value.roles.value) ==> r == Failure(Rejected(DriversOnly))
  {
    if !reply.ok then
      var message :=
        if reply.error.ErrorObject? && reply.error.message.Some? && reply.error.message.value != []
        then reply.error.message.value else InvalidCredentials;
      Failure(Rejected(message))
    else if reply.data.None? then Failure(MalformedBody)
    else if reply.data.value.roles.None? then Failure(MissingRoles)
    else if !HasDriverRole(reply.data.value.roles.value) then Failure(Rejected(DriversOnly))
    else Success(reply.data.value)
  }
}
