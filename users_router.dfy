/**
 * The admin user-management endpoints (backend/api/users_router.py). Every
 * handler runs behind `require_admin`; the acting admin is a parameter where a
 * handler reads it. The password hasher is a parameter: the table stores
 * whatever it returns for the trimmed password.
 */
module UsersRouter {
  import opened Common
  import opened Models

  const MissingCredentials := HttpError(400, "Username and password required")
  const UsernameTaken := HttpError(400, "Username already exists")
  const NoSuchUser := HttpError(404, "User not found")
  const InvalidRole := HttpError(400, "Invalid role")
  const InvalidStatus := HttpError(400, "Invalid status")
  const PasswordTooShort := HttpError(400, "Password must be at least 6 characters")
  const OwnAccount := HttpError(400, "Cannot delete your own account")

  /** The user record as these endpoints return it: every column except `password_hash`. */
  datatype UserView = UserView(
    id: int,
    username: string,
    fullName: Option<string>,
    email: Option<string>,
    role: UserRole,
    status: UserStatus,
    createdAt: Timestamp,
    lastLogin: Option<Timestamp>)

  function ViewOf(u: User): UserView
  {
    UserView(u.id, u.username, u.fullName, u.email, u.role, u.status, u.createdAt, u.lastLogin)
  }

  /** Two users look the same through the endpoints exactly when they differ at most in the hash. */
  lemma ViewHidesOnlyPassword(u: User, w: User)
    ensures ViewOf(u) == ViewOf(w) <==> u.(passwordHash := w.passwordHash) == w
  {
  }

  // ---------------------------------------------------------------------------
  // list_users

  /** `select(User).order_by(User.id.desc())`, each row shaped by `ViewOf`. */
  function ListUsers(users: map<int, User>, next: int): (r: seq<UserView>)
    requires UsersValid(users, next)
    ensures forall i, j :: 0 <= i < j < |r| ==> r[i].id > r[j].id
    ensures forall i :: 0 <= i < |r| ==> r[i].id in users && r[i] == ViewOf(users[r[i].id])
  {
    var ids := KeysDesc(users, 1, next);
    seq(|ids|, i requires 0 <= i < |ids| => ViewOf(users[ids[i]]))
  }

  /** Every user of the table is listed. */
  lemma ListUsersComplete(users: map<int, User>, next: int, k: int)
    requires UsersValid(users, next) && k in users
    ensures exists i :: 0 <= i < |ListUsers(users, next)| && ListUsers(users, next)[i].id == k
  {
    var ids := KeysDesc(users, 1, next);
    assert k in ids;
    var i :| 0 <= i < |ids| && ids[i] == k;
    assert ListUsers(users, next)[i].id == k;
  }

  // ---------------------------------------------------------------------------
  // Role and status fields of a request body

  /** `UserRole(payload.get("role", "moderator"))`: None where the coercion raises. */
  function RequestedRole(f: Field): (r: Option<UserRole>)
    ensures f.Absent? ==> r == Some(Moderator)
    ensures f.Null? ==> r.None?
    ensures f.Text? ==> (r.Some? <==> f.s in ["admin", "moderator", "viewer"])
    ensures f.Text? && r.Some? ==> RoleName(r.value) == f.s
  {
    match f
    case Absent => Some(Moderator)
    case Null => None
    case Text(s) => RoleFromName(s)
  }

  /** `payload.get("role")` checked against the three role names. */
  function RoleField(f: Field): (r: Option<UserRole>)
    ensures r.Some? <==> f.Text? && f.s in ["admin", "moderator", "viewer"]
    ensures r.Some? ==> RoleName(r.value) == f.s
  {
    if f.Text? then RoleFromName(f.s) else None
  }

  /** `payload.get("status")` checked against the two status names. */
  function StatusField(f: Field): (r: Option<UserStatus>)
    ensures r.Some? <==> f.Text? && f.s in ["active", "disabled"]
    ensures r.Some? ==> UserStatusName(r.value) == f.s
  {
    if f.Text? then UserStatusFromName(f.s) else None
  }

  // ---------------------------------------------------------------------------
  // create_user

  /** The keys `create_user` reads from its JSON body. */
  datatype NewUserBody = NewUserBody(username: Field, password: Field, role: Field, fullName: Field, email: Field)

  /** The username `create_user` stores: the trimmed `username` key, "" when absent or null. */
  function RequestedName(body: NewUserBody): string
  {
    Trim(TextOrEmpty(body.username))
  }

  function RequestedPassword(body: NewUserBody): string
  {
    Trim(TextOrEmpty(body.password))
  }

  /** The record `create_user` adds when all checks pass. */
  function NewUser(id: int, body: NewUserBody, role: UserRole, hash: string -> string, now: Timestamp): (u: User)
    ensures u.id == id && u.username == RequestedName(body) && u.passwordHash == hash(RequestedPassword(body))
    ensures u.fullName == FieldValue(body.fullName) && u.email == FieldValue(body.email)
    ensures u.role == role && u.status == Active && u.createdAt == now && u.lastLogin.None?
  {
    User(id, RequestedName(body), hash(RequestedPassword(body)), FieldValue(body.fullName),
      FieldValue(body.email), role, Active, now, None)
  }

  method CreateUser(db: Db, body: NewUserBody, hash: string -> string, now: Timestamp) returns (r: Result<UserView, HttpError>)
    requires UsersValid(db.users, db.nextUserId) && UsernamesUnique(db.users)
    modifies db`users, db`nextUserId
    ensures UsersValid(db.users, db.nextUserId) && UsernamesUnique(db.users)
    ensures r.Err? ==> db.users == old(db.users) && db.nextUserId == old(db.nextUserId)
    ensures RequestedName(body) == [] || RequestedPassword(body) == [] ==> r == Err(MissingCredentials)
    ensures RequestedName(body) != [] && RequestedPassword(body) != []
      && (exists k :: k in old(db.users) && old(db.users)[k].username == RequestedName(body))
      ==> r == Err(UsernameTaken)
    ensures r.Err? && r.error != MissingCredentials && r.error != UsernameTaken ==>
      r.error == InternalError && RequestedRole(body.role).None?
    ensures r.Ok? <==>
      && RequestedName(body) != [] && RequestedPassword(body) != []
      && (forall k :: k in old(db.users) ==> old(db.users)[k].username != RequestedName(body))
      && RequestedRole(body.role).Some?
    ensures r.Ok? ==>
      var u := NewUser(old(db.nextUserId), body, RequestedRole(body.role).value, hash, now);
      && db.users == old(db.users)[u.id := u]
      && db.nextUserId == old(db.nextUserId) + 1
      && r.value == ViewOf(u)
  {
    var name := RequestedName(body);
    var password := RequestedPassword(body);
    if name == [] || password == [] {
      return Err(MissingCredentials);
    }
    if UserByName(db.users, db.nextUserId, name).Some? {
      return Err(UsernameTaken);
    }
    var role := RequestedRole(body.role);
    if role.None? {
      return Err(InternalError);
    }
    var u := NewUser(db.nextUserId, body, role.value, hash, now);
    db.users := db.users[u.id := u];
    db.nextUserId := db.nextUserId + 1;
    r := Ok(ViewOf(u));
  }

  // ---------------------------------------------------------------------------
  // update_role, update_status

  method UpdateRole(db: Db, userId: int, role: Field) returns (r: Result<UserView, HttpError>)
    requires UsersValid(db.users, db.nextUserId) && UsernamesUnique(db.users)
    modifies db`users
    ensures UsersValid(db.users, db.nextUserId) && UsernamesUnique(db.users)
    ensures userId !in old(db.users) ==> r == Err(NoSuchUser) && db.users == old(db.users)
    ensures userId in old(db.users) && RoleField(role).None? ==> r == Err(InvalidRole) && db.users == old(db.users)
    ensures userId in old(db.users) && RoleField(role).Some? ==>
      && db.users == old(db.users)[userId := old(db.users)[userId].(role := RoleField(role).value)]
      && r == Ok(ViewOf(db.users[userId]))
  {
    if userId !in db.users {
      return Err(NoSuchUser);
    }
    var newRole := RoleField(role);
    if newRole.None? {
      return Err(InvalidRole);
    }
    db.users := db.users[userId := db.users[userId].(role := newRole.value)];
    r := Ok(ViewOf(db.users[userId]));
  }

  method UpdateStatus(db: Db, userId: int, status: Field) returns (r: Result<UserView, HttpError>)
    requires UsersValid(db.users, db.nextUserId) && UsernamesUnique(db.users)
    modifies db`users
    ensures UsersValid(db.users, db.nextUserId) && UsernamesUnique(db.users)
    ensures userId !in old(db.users) ==> r == Err(NoSuchUser) && db.users == old(db.users)
    ensures userId in old(db.users) && StatusField(status).None? ==> r == Err(InvalidStatus) && db.users == old(db.users)
    ensures userId in old(db.users) && StatusField(status).Some? ==>
      && db.users == old(db.users)[userId := old(db.users)[userId].(status := StatusField(status).value)]
      && r == Ok(ViewOf(db.users[userId]))
  {
    if userId !in db.users {
      return Err(NoSuchUser);
    }
    var newStatus := StatusField(status);
    if newStatus.None? {
      return Err(InvalidStatus);
    }
    db.users := db.users[userId := db.users[userId].(status := newStatus.value)];
    r := Ok(ViewOf(db.users[userId]));
  }

  // ---------------------------------------------------------------------------
  // reset_password, delete_user

  /** Minimum length of a reset password, counted after trimming. */
  const MinPasswordLength := 6

  method ResetPassword(db: Db, userId: int, password: Field, hash: string -> string) returns (r: Result<(), HttpError>)
    requires UsersValid(db.users, db.nextUserId) && UsernamesUnique(db.users)
    modifies db`users
    ensures UsersValid(db.users, db.nextUserId) && UsernamesUnique(db.users)
    ensures |Trim(TextOrEmpty(password))| < MinPasswordLength ==> r == Err(PasswordTooShort) && db.users == old(db.users)
    ensures |Trim(TextOrEmpty(password))| >= MinPasswordLength && userId !in old(db.users) ==>
      r == Err(NoSuchUser) && db.users == old(db.users)
    ensures |Trim(TextOrEmpty(password))| >= MinPasswordLength && userId in old(db.users) ==>
      && r == Ok(())
      && db.users == old(db.users)[userId := old(db.users)[userId].(passwordHash := hash(Trim(TextOrEmpty(password))))]
  {
    var pw := Trim(TextOrEmpty(password));
    if |pw| < MinPasswordLength {
      return Err(PasswordTooShort);
    }
    if userId !in db.users {
      return Err(NoSuchUser);
    }
    db.users := db.users[userId := db.users[userId].(passwordHash := hash(pw))];
    r := Ok(());
  }

  method DeleteUser(db: Db, userId: int, acting: User) returns (r: Result<(), HttpError>)
    requires UsersValid(db.users, db.nextUserId) && UsernamesUnique(db.users)
    modifies db`users
    ensures UsersValid(db.users, db.nextUserId) && UsernamesUnique(db.users)
    ensures userId !in old(db.users) ==> r == Err(NoSuchUser) && db.users == old(db.users)
    ensures userId in old(db.users) && userId == acting.id ==> r == Err(OwnAccount) && db.users == old(db.users)
    ensures userId in old(db.users) && userId != acting.id ==> r == Ok(()) && db.users == old(db.users) - {userId}
  {
    if userId !in db.users {
      return Err(NoSuchUser);
    }
    if db.users[userId].id == acting.id {
      return Err(OwnAccount);
    }
    db.users := db.users - {userId};
    r := Ok(());
  }
}
