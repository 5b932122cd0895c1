/** The password routes of routes/authRoutes.js: `generateToken`, `POST /signup` and `POST /login`.
    Signup inserts into the user store; login is a lookup and a password comparison. `dbUp` says
    whether the database answers (a failure lands in the handlers' `catch`). */
module AuthRoutes {
  import opened Wrappers
  import opened Text
  import opened Http
  import opened Users
  import opened Jwt
  import Bcrypt

  /** `generateToken(id)`: claims `{ id }`, valid for 365 days. */
  function GenerateToken(id: UserId, now: int): Token {
    Sign(IdClaims(id), now)
  }

  datatype AccountReply = AccountReply(id: UserId, name: Option<string>, email: Slot, token: Token)

  function AccountOf(u: User, now: int): AccountReply {
    AccountReply(u.id, u.name, u.email, GenerateToken(u.id, now))
  }

  /** The document `User.create({ name, email, password })` is asked for. */
  function SignupFields(name: Option<string>, email: string, password: Option<string>): NewUser {
    NoFields.(name := name, email := Val(email), password := password)
  }

  datatype SignupOutcome = SignupOutcome(reply: Reply<AccountReply>, users: seq<User>, nextId: UserId)

  /** What `POST /signup` answers and leaves in the collection. */
  function SignupSpec(users: seq<User>, nextId: UserId, name: Option<string>, email: string,
                      password: Option<string>, salt: Bcrypt.Salt, dbUp: bool, now: int): SignupOutcome
  {
    if !dbUp then SignupOutcome(Err(500, "Server error"), users, nextId)
    else if FindOne(users, ByEmail(email)).Some? then SignupOutcome(Err(400, "User already exists"), users, nextId)
    else
      var u := Materialize(nextId, SignupFields(name, email, password), salt);
      if Fits(users, u) then SignupOutcome(Ok(200, AccountOf(u, now)), users + [u], nextId + 1)
      else SignupOutcome(Err(500, "Server error"), users, nextId)
  }

  /** Once no account holds the email, the new document cannot collide: it has a fresh id, an email
      nobody has, and no phone or Google id. */
  lemma SignupInsertFits(users: seq<User>, nextId: UserId, name: Option<string>, email: string,
                         password: Option<string>, salt: Bcrypt.Salt)
    requires forall i :: 0 <= i < |users| ==> users[i].id < nextId
    requires FindOne(users, ByEmail(email)).None?
    ensures Fits(users, Materialize(nextId, SignupFields(name, email, password), salt))
  {
    var u := Materialize(nextId, SignupFields(name, email, password), salt);
    forall i | 0 <= i < |users|
      ensures Compatible(users[i], u)
    {
      assert !ByEmail(email)(users[i]);
    }
  }

  /** An email that is already taken is refused with 400 and creates nothing. */
  lemma SignupExistingEmail(users: seq<User>, nextId: UserId, name: Option<string>, email: string,
                            password: Option<string>, salt: Bcrypt.Salt, now: int, i: nat)
    requires i < |users| && users[i].email == Val(Trim(email))
    ensures SignupSpec(users, nextId, name, email, password, salt, true, now)
         == SignupOutcome(Err(400, "User already exists"), users, nextId)
  {
    assert ByEmail(email)(users[i]);
  }

  /** A signup with a fresh email creates exactly one account, with the given name, the trimmed
      email and a password that matches exactly the one given, and answers with that account and a
      token whose claims are `{ id }` and whose lifetime is 365 days. */
  lemma {:induction false} SignupCreatesAccount(users: seq<User>, nextId: UserId, name: Option<string>, email: string,
                                                p: string, q: string, salt: Bcrypt.Salt, now: int)
    requires forall i :: 0 <= i < |users| ==> users[i].id < nextId
    requires FindOne(users, ByEmail(email)).None?
    ensures var o := SignupSpec(users, nextId, name, email, Some(p), salt, true, now);
      o.reply.Ok? && |o.users| == |users| + 1 && o.users[..|users|] == users && o.nextId == nextId + 1
      && var u := o.users[|users|];
      u.id == nextId && u.name == name && u.email == Val(Trim(email))
      && MatchPassword(u, Some(q)) == Success(q == p)
      && o.reply.body == AccountReply(u.id, name, u.email, o.reply.body.token)
      && o.reply.body.token.claims == IdClaims(u.id)
      && o.reply.body.token.expiresAt - o.reply.body.token.issuedAt == EXPIRES_IN
  {
    SignupInsertFits(users, nextId, name, email, Some(p), salt);
    PasswordRoundTrip(nextId, SignupFields(name, email, Some(p)), p, q, salt);
    var u := Materialize(nextId, SignupFields(name, email, Some(p)), salt);
    assert (users + [u])[..|users|] == users;
  }

  /** `POST /signup`. */
  method Signup(store: UserStore, name: Option<string>, email: string, password: Option<string>,
                salt: Bcrypt.Salt, dbUp: bool, now: int) returns (reply: Reply<AccountReply>)
    requires store.Valid()
    modifies store
    ensures store.Valid()
    ensures SignupOutcome(reply, store.users, store.nextId)
         == SignupSpec(old(store.users), old(store.nextId), name, email, password, salt, dbUp, now)
  {
    if !dbUp {
      return Err(500, "Server error");
    }
    var existing := FindOne(store.users, ByEmail(email));
    if existing.Some? {
      return Err(400, "User already exists");
    }
    SignupInsertFits(store.users, store.nextId, name, email, password, salt);
    ghost var u := Materialize(store.nextId, SignupFields(name, email, password), salt);
    var created := store.Create(SignupFields(name, email, password), salt);
    assert created == Success(u) && store.users == old(store.users) + [u];
    reply := Ok(200, AccountOf(created.value, now));
  }

  /** `POST /login`: a token only for an account with that email whose password matches;
      `matchPassword` throws (500) when the body has no password or the account has none. */
  function Login(users: seq<User>, email: string, password: Option<string>, dbUp: bool, now: int): Reply<AccountReply> {
    if !dbUp then Err(500, "Server error")
    else match FindOne(users, ByEmail(email))
      case None => Err(401, "Invalid email or password")
      case Some(u) =>
        match MatchPassword(u, password)
        case Failure(_) => Err(500, "Server error")
        case Success(ok) => if ok then Ok(200, AccountOf(u, now)) else Err(401, "Invalid email or password")
  }

  /** A token is issued exactly when an account holds the email and its password matches; the
      token names that account through the `id` claim, as passcode tokens do. */
  lemma {:induction false} LoginTokenOnlyOnMatch(users: seq<User>, email: string, password: Option<string>, now: int)
    requires SparseUnique(users)
    ensures var r := Login(users, email, password, true, now);
      r.Ok? <==> exists i :: 0 <= i < |users| && users[i].email == Val(Trim(email))
                             && MatchPassword(users[i], password) == Success(true)
    ensures var r := Login(users, email, password, true, now);
      r.Ok? ==> exists i :: 0 <= i < |users| && users[i].email == Val(Trim(email))
                  && r.body == AccountOf(users[i], now) && r.body.token.claims == IdClaims(users[i].id)
  {
    var found := FindOne(users, ByEmail(email));
    if found.Some? {
      var k :| 0 <= k < |users| && users[k] == found.value;
      forall i | 0 <= i < |users| && users[i].email == Val(Trim(email))
        ensures i == k
      {
      }
    } else {
      forall i | 0 <= i < |users|
        ensures users[i].email != Val(Trim(email))
      {
        assert !ByEmail(email)(users[i]);
      }
    }
  }

  /** For accounts with a password, an unknown email and a wrong password get the same answer. */
  lemma LoginUniformRejection(users: seq<User>, unknown: string, known: string, wrong: string, now: int, i: nat)
    requires FindOne(users, ByEmail(unknown)).None?
    requires i < |users| && FindOne(users, ByEmail(known)) == Some(users[i])
    requires users[i].password.Some? && !Bcrypt.Compare(wrong, users[i].password.value)
    ensures Login(users, unknown, Some(wrong), true, now) == Login(users, known, Some(wrong), true, now)
                                                          == Err(401, "Invalid email or password")
  {
  }

  /** An account without a password (created by the passcode or the Google sign-in) answers a login
      attempt with 500 rather than 401, since `bcrypt.compare` throws on a null hash. */
  lemma LoginPasswordlessAccount(users: seq<User>, email: string, password: Option<string>, now: int, i: nat)
    requires i < |users| && FindOne(users, ByEmail(email)) == Some(users[i]) && users[i].password.None?
    ensures Login(users, email, password, true, now) == Err(500, "Server error")
  {
  }

  /** Appending a document that matches a filter nothing else matched makes it the first match. */
  lemma {:induction false} FindOneAppended(users: seq<User>, u: User, p: User -> bool)
    requires FindOne(users, p).None? && p(u)
    ensures FindOne(users + [u], p) == Some(u)
  {
    var all := users + [u];
    assert p(all[|users|]);
    assert forall j :: 0 <= j < |users| ==> all[j] == users[j];
  }

  /** Signup then login with the same email and password logs into the account just created. */
  lemma {:induction false} SignupThenLogin(users: seq<User>, nextId: UserId, name: Option<string>, email: string,
                                           p: string, salt: Bcrypt.Salt, now: int, later: int)
    requires forall i :: 0 <= i < |users| ==> users[i].id < nextId
    requires FindOne(users, ByEmail(email)).None?
    ensures var o := SignupSpec(users, nextId, name, email, Some(p), salt, true, now);
      Login(o.users, email, Some(p), true, later) == Ok(200, AccountOf(o.users[|users|], later))
      && o.users[|users|].id == nextId
  {
    SignupInsertFits(users, nextId, name, email, Some(p), salt);
    var u := Materialize(nextId, SignupFields(name, email, Some(p)), salt);
    PasswordRoundTrip(nextId, SignupFields(name, email, Some(p)), p, p, salt);
    TrimProperties(email);
    assert ByEmail(email)(u);
    FindOneAppended(users, u, ByEmail(email));
    assert SignupSpec(users, nextId, name, email, Some(p), salt, true, now).users == users + [u];
  }
}
