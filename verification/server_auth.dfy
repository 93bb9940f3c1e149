/** Accounts on the backend: registration with its duplicate check, the credential
    check of login, resolving the bearer of a token, and the admin gate. Password
    hashing and JWT encoding are foreign calls; they appear here as parameters. */
module ServerAuth {
  import opened Common

  datatype User = User(
    id: string,
    username: string,
    email: string,
    fullName: string,
    passwordHash: string,
    isAdmin: bool,
    createdAt: int)

  /** The body of `POST /api/auth/register`. */
  datatype Registration = Registration(username: string, email: string, password: string, fullName: string)

  /** Some account already uses this username or this email. */
  predicate Taken(users: seq<User>, username: string, email: string) {
    exists k :: 0 <= k < |users| && (users[k].username == username || users[k].email == email)
  }

  /** No two accounts share a username or an email. */
  predicate UniqueAccounts(users: seq<User>) {
    forall i, j :: 0 <= i < j < |users| ==>
      users[i].username != users[j].username && users[i].email != users[j].email
  }

  datatype Registered = Registered(users: seq<User>, user: User)

  /** `POST /api/auth/register`: rejected with 400 when the username or the email is
      taken; otherwise one non-admin account is appended. The fresh id, the clock and
      the password hash are supplied by the caller. */
  function Register(users: seq<User>, req: Registration, newId: string, now: int,
                    hash: string -> string): (r: Result<Registered>)
    ensures r.Err? <==> Taken(users, req.username, req.email)
    ensures r.Err? ==> r.error == HttpError(BadRequest, "Username or email already registered")
    ensures r.Ok? ==> r.value.users == users + [r.value.user]
    ensures r.Ok? ==> r.value.user == User(newId, req.username, req.email, req.fullName,
                                           hash(req.password), false, now)
  {
    if Taken(users, req.username, req.email) then
      Err(HttpError(BadRequest, "Username or email already registered"))
    else
      var user := User(newId, req.username, req.email, req.fullName, hash(req.password), false, now);
      Ok(Registered(users + [user], user))
  }

  /** Registration never lets two accounts share a username or an email. */
  lemma RegisterKeepsUnique(users: seq<User>, req: Registration, newId: string, now: int,
                            hash: string -> string)
    requires UniqueAccounts(users)
    requires Register(users, req, newId, now, hash).Ok?
    ensures UniqueAccounts(Register(users, req, newId, now, hash).value.users)
  {
  }

  /** Position of the first account with this username (`find_one({"username": …})`). */
  function FindUser(users: seq<User>, username: string): (r: Option<nat>)
    ensures r.Some? ==> r.value < |users| && users[r.value].username == username
    ensures r.None? <==> forall k :: 0 <= k < |users| ==> users[k].username != username
    decreases |users|
  {
    if |users| == 0 then None
    else if users[0].username == username then Some(0)
    else match FindUser(users[1..], username)
      case None => None
      case Some(i) => Some(i + 1)
  }

  /** `POST /api/auth/login`: the token subject (the username) when the account exists
      and the password verifies against its hash, else 401. */
  function Login(users: seq<User>, username: string, password: string,
                 verify: (string, string) -> bool): (r: Result<string>)
    ensures r.Ok? ==> r.value == username
    ensures r.Ok? ==> exists k :: 0 <= k < |users| && users[k].username == username
                                  && verify(password, users[k].passwordHash)
    ensures (forall k :: 0 <= k < |users| ==> users[k].username != username) ==>
              r == Err(HttpError(Unauthorized, "Incorrect username or password"))
    ensures r.Err? ==> r.error == HttpError(Unauthorized, "Incorrect username or password")
  {
    match FindUser(users, username)
    case None => Err(HttpError(Unauthorized, "Incorrect username or password"))
    case Some(i) =>
      if verify(password, users[i].passwordHash) then Ok(username)
      else Err(HttpError(Unauthorized, "Incorrect username or password"))
  }

  /** With unique usernames, login succeeds exactly for an account whose hash verifies. */
  lemma LoginExact(users: seq<User>, username: string, password: string,
                   verify: (string, string) -> bool, k: nat)
    requires UniqueAccounts(users)
    requires k < |users| && users[k].username == username
    ensures Login(users, username, password, verify).Ok? <==> verify(password, users[k].passwordHash)
  {
    var i := FindUser(users, username).value;
    assert users[i].username == users[k].username;
  }

  /** `get_current_user`: the account named by a valid token's subject. A token that
      does not decode (`None`) or names no account is a 401. */
  function CurrentUser(users: seq<User>, subject: Option<string>): (r: Result<User>)
    ensures subject.None? ==> r.Err?
    ensures r.Err? ==> r.error == HttpError(Unauthorized, "Could not validate credentials")
    ensures r.Ok? ==> r.value in users && subject == Some(r.value.username)
    ensures subject.Some? && FindUser(users, subject.value).Some? ==>
              r == Ok(users[FindUser(users, subject.value).value])
    ensures subject.Some? && FindUser(users, subject.value).None? ==> r.Err?
  {
    match subject
    case None => Err(HttpError(Unauthorized, "Could not validate credentials"))
    case Some(name) =>
      match FindUser(users, name)
      case None => Err(HttpError(Unauthorized, "Could not validate credentials"))
      case Some(i) => Ok(users[i])
  }

  /** A token issued by a successful login resolves, with unique usernames, to the very
      account whose password verified. */
  lemma LoginThenCurrentUser(users: seq<User>, username: string, password: string,
                             verify: (string, string) -> bool)
    requires UniqueAccounts(users)
    requires Login(users, username, password, verify).Ok?
    ensures CurrentUser(users, Some(Login(users, username, password, verify).value)).Ok?
    ensures var u := CurrentUser(users, Some(Login(users, username, password, verify).value)).value;
            u in users && u.username == username && verify(password, u.passwordHash)
  {
    var i := FindUser(users, username).value;
    assert verify(password, users[i].passwordHash);
  }

  /** The gate of every admin route: 403 unless the account has the admin flag. */
  function RequireAdmin(user: User): (r: Result<User>)
    ensures r.Ok? <==> user.isAdmin
    ensures r.Err? ==> r.error == HttpError(Forbidden, "Admin access required")
  {
    if user.isAdmin then Ok(user) else Err(HttpError(Forbidden, "Admin access required"))
  }
}
