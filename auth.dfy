/**
 * Signup, login and "me" over the user table. Passwords are stored and
 * compared as plain text; the token is produced by `sign`, the JSON web
 * token library, from the user's id and email only.
 */
module Auth {
  import opened Wrappers
  import opened Http
  import opened Schema

  /** The claims a session token carries. */
  datatype Claims = Claims(id: nat, email: string)

  /** The user as signup and login return it: no password, no profile fields. */
  datatype UserView = UserView(id: nat, name: string, email: string, role: string, createdAt: int)

  /** The user as "me" returns it: no password and no role. */
  datatype MeView = MeView(id: nat, name: string, email: string, createdAt: int, updatedAt: int)

  datatype Session = Session(user: UserView, token: string)

  function ViewOf(u: User): UserView {
    UserView(u.id, u.name, u.email, u.role, u.createdAt)
  }

  function MeViewOf(u: User): MeView {
    MeView(u.id, u.name, u.email, u.createdAt, u.updatedAt)
  }

  /** The reply data of a successful signup or login: the view and a token
      signed over exactly the user's id and email. */
  function SessionFor(u: User, sign: Claims -> string): Session {
    Session(ViewOf(u), sign(Claims(u.id, u.email)))
  }

  /** `role || 'VOLUNTEER'`. */
  function RoleOrDefault(role: Option<string>): (r: string)
    ensures Given(role) ==> r == role.value
    ensures !Given(role) ==> r == "VOLUNTEER"
  {
    OrElse(role, "VOLUNTEER")
  }

  /** A value of the store's role enumeration. */
  predicate KnownRole(role: string) {
    role == "VOLUNTEER" || role == "ORGANIZATION"
  }

  /** The row signup inserts. */
  function NewUser(id: nat, name: string, email: string, password: string, role: Option<string>,
                   skills: Option<string>, location: Option<string>, now: int): (u: User)
    ensures u.id == id && u.email == email && u.password == password
    ensures u.role == RoleOrDefault(role) && u.role != ""
  {
    User(id, name, email, password, RoleOrDefault(role), skills, location, now, now)
  }

  /** POST /auth/signup. */
  method Signup(users: UserTable, sign: Claims -> string,
                name: Option<string>, email: Option<string>, password: Option<string>,
                role: Option<string>, skills: Option<string>, location: Option<string>, now: int)
    returns (r: Reply<Session>)
    requires users.Valid()
    modifies users
    ensures users.Valid()
    ensures !(Given(name) && Given(email) && Given(password)) ==>
      r == Fail(400, "Name, email, and password are required") && unchanged(users)
    ensures Given(name) && Given(email) && Given(password) && old(users.HasEmail(email.value)) ==>
      r == Fail(409, "User with this email already exists") && unchanged(users)
    ensures Given(name) && Given(email) && Given(password) && !old(users.HasEmail(email.value))
            && !KnownRole(RoleOrDefault(role)) ==>
      r == Fail(500, "Internal server error") && unchanged(users)
    ensures Given(name) && Given(email) && Given(password) && !old(users.HasEmail(email.value))
            && KnownRole(RoleOrDefault(role)) ==>
      var u := NewUser(old(users.nextId), name.value, email.value, password.value, role, skills, location, now);
      && users.rows == old(users.rows)[u.id := u]
      && users.nextId == old(users.nextId) + 1
      && r == Ok(201, "User created successfully", SessionFor(u, sign))
  {
    if !(Given(name) && Given(email) && Given(password)) {
      return Fail(400, "Name, email, and password are required");
    }
    if users.HasEmail(email.value) {
      return Fail(409, "User with this email already exists");
    }
    if !KnownRole(RoleOrDefault(role)) {
      return Fail(500, "Internal server error");
    }
    var u := NewUser(users.nextId, name.value, email.value, password.value, role, skills, location, now);
    users.rows := users.rows[u.id := u];
    users.nextId := users.nextId + 1;
    r := Ok(201, "User created successfully", SessionFor(u, sign));
  }

  /** A user with exactly this email has exactly this stored password. */
  ghost predicate Matches(users: map<nat, User>, email: string, password: string) {
    exists id | id in users :: users[id].email == email && users[id].password == password
  }

  /** POST /auth/login. Reads the table and never writes it. */
  method Login(users: UserTable, sign: Claims -> string, email: Option<string>, password: Option<string>)
    returns (r: Reply<Session>)
    requires users.Valid()
    ensures !(Given(email) && Given(password)) ==> r == Fail(400, "Email and password are required")
    ensures Given(email) && Given(password) ==>
      (r.Ok? <==> Matches(users.rows, email.value, password.value))
    ensures Given(email) && Given(password) && r.Fail? ==> r == Fail(401, "Invalid email or password")
    ensures r.Ok? ==> exists id | id in users.rows ::
      users.rows[id].email == email.value && r == Ok(200, "Login successful", SessionFor(users.rows[id], sign))
  {
    if !(Given(email) && Given(password)) {
      return Fail(400, "Email and password are required");
    }
    if !users.HasEmail(email.value) {
      return Fail(401, "Invalid email or password");
    }
    var id :| id in users.rows && users.rows[id].email == email.value;
    var u := users.rows[id];
    if u.password != password.value {
      return Fail(401, "Invalid email or password");
    }
    r := Ok(200, "Login successful", SessionFor(u, sign));
  }

  /** GET /auth/me, for the user the session token names. */
  method GetCurrentUser(users: UserTable, caller: Claims) returns (r: Reply<MeView>)
    requires users.Valid()
    ensures r.Fail? <==> caller.id !in users.rows
    ensures r.Fail? ==> r == Fail(404, "User not found")
    ensures r.Ok? ==> r == Ok(200, "", MeViewOf(users.rows[caller.id]))
  {
    if caller.id !in users.rows {
      return Fail(404, "User not found");
    }
    r := Ok(200, "", MeViewOf(users.rows[caller.id]));
  }

  /** Signing up and then logging in with the same email and password
      succeeds and returns the same user view. */
  method SignupThenLogin(users: UserTable, sign: Claims -> string,
                         name: string, email: string, password: string, role: Option<string>, now: int)
    returns (signedUp: Reply<Session>, loggedIn: Reply<Session>)
    requires users.Valid() && name != "" && email != "" && password != ""
    requires !users.HasEmail(email) && KnownRole(RoleOrDefault(role))
    modifies users
    ensures signedUp.Ok? && loggedIn.Ok?
    ensures loggedIn.data == signedUp.data
  {
    signedUp := Signup(users, sign, Some(name), Some(email), Some(password), role, None, None, now);
    ghost var u := NewUser(old(users.nextId), name, email, password, role, None, None, now);
    assert users.rows[u.id] == u;
    loggedIn := Login(users, sign, Some(email), Some(password));
    ghost var id :| id in users.rows && users.rows[id].email == email && loggedIn.data == SessionFor(users.rows[id], sign);
    assert id == u.id;
  }
}
