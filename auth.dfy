/**
 * backend/core/auth.py: access tokens and the dependency chain that turns a
 * bearer token into the calling user.
 *
 * `jwt.encode` and `jwt.decode` (python-jose with the configured secret) are
 * parameters: `decode` answers `None` wherever jose raises `JWTError` (bad
 * signature, malformed token, expired `exp`). Times are in seconds.
 */
module Auth {
  import opened Common
  import opened Models

  /** A claim value: text, or a point in time. */
  datatype Claim = Str(s: string) | Time(t: Timestamp)

  type Claims = map<string, Claim>

  /** `ACCESS_TOKEN_EXPIRE_MINUTES`, the default of the settings field. */
  const AccessTokenExpireMinutes: int := 1440

  /**
   * The expiry `create_access_token` chooses: the explicit delta when it is
   * truthy, otherwise the configured number of minutes. A zero `timedelta` is
   * falsy, so it also gets the default.
   */
  function Expiry(now: Timestamp, expiresDelta: Option<int>): (exp: Timestamp)
    ensures expiresDelta.Some? && expiresDelta.value != 0 ==> exp - now == expiresDelta.value
    ensures expiresDelta.None? || expiresDelta.value == 0 ==> exp - now == 86400
  {
    match expiresDelta
    case Some(d) => if d != 0 then now + d else now + AccessTokenExpireMinutes * 60
    case None => now + AccessTokenExpireMinutes * 60
  }

  /** The claims `create_access_token` encodes: a copy of `data` with `exp` set. */
  function AccessClaims(data: Claims, now: Timestamp, expiresDelta: Option<int>): (c: Claims)
    ensures c.Keys == data.Keys + {"exp"}
    ensures c["exp"] == Time(Expiry(now, expiresDelta))
    ensures forall k :: k in data && k != "exp" ==> c[k] == data[k]
  {
    data["exp" := Time(Expiry(now, expiresDelta))]
  }

  /** `create_access_token`: the encoded claims. */
  function CreateAccessToken(data: Claims, now: Timestamp, expiresDelta: Option<int>,
                             encode: Claims -> string): (token: string)
    ensures token == encode(AccessClaims(data, now, expiresDelta))
  {
    encode(AccessClaims(data, now, expiresDelta))
  }

  const CredentialsError := HttpError(401, "Could not validate credentials")

  const AccountDisabled := HttpError(403, "Account disabled")

  const AdminRequired := HttpError(403, "Admin access required")

  /** `payload.get("sub")` when it is non-empty text (`if not username` fails otherwise). */
  function Subject(c: Claims): (r: Option<string>)
    ensures r.Some? <==> "sub" in c && c["sub"].Str? && c["sub"].s != ""
    ensures r.Some? ==> r.value == c["sub"].s
  {
    if "sub" in c && c["sub"].Str? && c["sub"].s != "" then Some(c["sub"].s) else None
  }

  /** `get_current_user`. */
  function GetCurrentUser(token: string, decode: string -> Option<Claims>,
                          users: map<int, User>, next: int): (r: Result<User, HttpError>)
    ensures r.Ok? ==> r.value in users.Values && r.value.status == Active
    ensures r.Ok? ==> decode(token).Some? && Subject(decode(token).value) == Some(r.value.username)
    ensures r.Err? ==> r.error == CredentialsError || r.error == AccountDisabled
  {
    match decode(token)
    case None => Err(CredentialsError)
    case Some(c) =>
      match Subject(c)
      case None => Err(CredentialsError)
      case Some(name) =>
        match UserByName(users, next, name)
        case None => Err(CredentialsError)
        case Some(id) =>
          if users[id].status == Disabled then Err(AccountDisabled) else assert users[id].status.Active?; Ok(users[id])
  }

  /** `require_admin`: the role check applied to the user `get_current_user` returned. */
  function RequireAdmin(user: User): (r: Result<User, HttpError>)
    ensures r.Ok? <==> user.role == Admin
    ensures r.Ok? ==> r.value == user
    ensures r.Err? ==> r.error == AdminRequired
  {
    if user.role != Admin then Err(AdminRequired) else Ok(user)
  }

  /** The whole dependency chain of an admin route: `require_admin(get_current_user(token))`. */
  function AdminChain(token: string, decode: string -> Option<Claims>,
                      users: map<int, User>, next: int): (r: Result<User, HttpError>)
    ensures r.Ok? ==> r.value in users.Values && r.value.status == Active && r.value.role == Admin
    ensures r.Err? ==> r.error == CredentialsError || r.error == AccountDisabled || r.error == AdminRequired
  {
    match GetCurrentUser(token, decode, users, next)
    case Err(e) => Err(e)
    case Ok(u) => RequireAdmin(u)
  }

  /**
   * What `get_current_user` answers: 401 for a token that does not decode, has
   * no usable `sub` or names nobody; 403 for a disabled account; otherwise the
   * stored user, unchanged.
   */
  lemma GetCurrentUserOutcome(token: string, decode: string -> Option<Claims>,
                              users: map<int, User>, next: int)
    requires UsersValid(users, next)
    ensures var r := GetCurrentUser(token, decode, users, next);
            && (decode(token).None? ==> r == Err(CredentialsError))
            && (decode(token).Some? && Subject(decode(token).value).None? ==> r == Err(CredentialsError))
            && (decode(token).Some? && Subject(decode(token).value).Some? ==>
                  var name := Subject(decode(token).value).value;
                  && ((forall k :: k in users ==> users[k].username != name) ==> r == Err(CredentialsError))
                  && (forall k :: k in users && users[k].username == name && UsernamesUnique(users) ==>
                        r == (if users[k].status == Disabled then Err(AccountDisabled) else Ok(users[k]))))
  {
    match decode(token)
    case None =>
    case Some(c) =>
      match Subject(c)
      case None =>
      case Some(name) =>
        forall k | k in users && users[k].username == name && UsernamesUnique(users)
          ensures GetCurrentUser(token, decode, users, next)
                  == (if users[k].status == Disabled then Err(AccountDisabled) else Ok(users[k]))
        {
          UserByNameFindsUnique(users, next, k);
        }
  }

  /** A user returned by `get_current_user` is active and is the one the token names. */
  lemma CurrentUserIsActiveSubject(token: string, decode: string -> Option<Claims>,
                                   users: map<int, User>, next: int)
    requires GetCurrentUser(token, decode, users, next).Ok?
    ensures var u := GetCurrentUser(token, decode, users, next).value;
            && decode(token).Some?
            && Subject(decode(token).value) == Some(u.username)
            && u.status == Active
            && u in users.Values
  {
    var c := decode(token).value;
    var id := UserByName(users, next, Subject(c).value).value;
    assert users[id] == GetCurrentUser(token, decode, users, next).value;
  }

  /**
   * Only active admins pass an admin route, and every active admin named by a
   * decodable token does.
   */
  lemma OnlyActiveAdminsPass(token: string, decode: string -> Option<Claims>,
                             users: map<int, User>, next: int)
    requires UsersValid(users, next) && UsernamesUnique(users)
    ensures var r := AdminChain(token, decode, users, next);
            r.Ok? <==> exists k :: k in users && users[k].role == Admin && users[k].status == Active
                                   && decode(token).Some?
                                   && Subject(decode(token).value) == Some(users[k].username)
    ensures var r := AdminChain(token, decode, users, next);
            r.Ok? ==> r.value.role == Admin && r.value.status == Active
  {
    var r := AdminChain(token, decode, users, next);
    if r.Ok? {
      CurrentUserIsActiveSubject(token, decode, users, next);
      var c := decode(token).value;
      var id := UserByName(users, next, Subject(c).value).value;
      assert users[id].role == Admin && users[id].status == Active;
    }
    if exists k :: k in users && users[k].role == Admin && users[k].status == Active
                   && decode(token).Some? && Subject(decode(token).value) == Some(users[k].username)
    {
      var k :| k in users && users[k].role == Admin && users[k].status == Active
               && decode(token).Some? && Subject(decode(token).value) == Some(users[k].username);
      UserByNameFindsUnique(users, next, k);
    }
  }

  /** A token issued for an active user's name authenticates that user, whatever its lifetime. */
  lemma IssuedTokenAuthenticates(u: User, now: Timestamp, expiresDelta: Option<int>,
                                 encode: Claims -> string, decode: string -> Option<Claims>,
                                 users: map<int, User>, next: int)
    requires UsersValid(users, next) && UsernamesUnique(users)
    requires u.id in users && users[u.id] == u && u.status == Active && u.username != ""
    requires forall c :: decode(encode(c)) == Some(c)
    ensures GetCurrentUser(CreateAccessToken(map["sub" := Str(u.username)], now, expiresDelta, encode),
                           decode, users, next) == Ok(u)
  {
    var c := AccessClaims(map["sub" := Str(u.username)], now, expiresDelta);
    assert decode(encode(c)) == Some(c);
    assert c["sub"] == Str(u.username);
    UserByNameFindsUnique(users, next, u.id);
  }
}
