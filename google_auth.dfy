/** `googleSignIn` of src/controllers/authController.js: the gates on the request, then find the
    account by Google id, else by (lower-cased) email, else upsert one; an account found is linked
    to the Google id and refreshed, and saved only when something changed. The verified Google
    payload is an input; so is whether the client id is configured. */
module GoogleAuth {
  import opened Wrappers
  import opened Text
  import opened Http
  import opened Users
  import opened Jwt

  /** The fields of a verified ID token's payload the handler reads. */
  datatype GooglePayload = GooglePayload(sub: string, email: Option<string>, name: Option<string>,
                                         picture: Option<string>, emailVerified: bool)

  /** `verifyIdToken`: a rejection, or a ticket whose payload may be missing. */
  datatype Ticket = Rejected | Verified(payload: Option<GooglePayload>)

  /** `payload.email ? String(payload.email).toLowerCase() : null`. */
  function NormalizedEmail(email: Option<string>): Option<string> {
    if Truthy(email) then Some(ToLower(email.value)) else None
  }

  /** The `{ email }` branch of the upsert's `$or` as written: with a null email it is
      `{ email: null }`, which matches every document whose email is null or absent. */
  predicate EmailClauseAsWritten(stored: Slot, email: Option<string>) {
    if email.Some? then stored == Val(Trim(email.value)) else !stored.Val?
  }

  /** The `$or: [{ googleId }, { email }]` filter of line 218, as written. */
  function UpsertFilterAsWritten(googleId: string, email: Option<string>): User -> bool {
    (u: User) => u.googleId == Some(googleId) || EmailClauseAsWritten(u.email, email)
  }

  /** The upsert filter with the email branch only when there is an email. */
  function UpsertFilter(googleId: string, email: Option<string>): User -> bool {
    (u: User) => u.googleId == Some(googleId) || (email.Some? && u.email == Val(Trim(email.value)))
  }

  /** The `$setOnInsert` document: the Google id, the email (an explicit null when there is none),
      name, picture, provider "google" and the verified flag. */
  function GoogleNewUser(p: GooglePayload, email: Option<string>): NewUser {
    NoFields.(name := p.name, email := if email.Some? then Val(email.value) else Null,
              googleId := Some(p.sub), picture := p.picture,
              isEmailVerified := Some(p.emailVerified), provider := Some(Google))
  }

  /** The `changed` flag of lines 232-235. */
  predicate ProfileChanged(u: User, p: GooglePayload) {
    (!Truthy(u.googleId) && p.sub != "")
    || (Truthy(p.name) && u.name != p.name)
    || (Truthy(p.picture) && u.picture != p.picture)
  }

  /** The assignments of lines 233-235. */
  function LinkProfile(u: User, p: GooglePayload): User {
    var u1 := if !Truthy(u.googleId) && p.sub != "" then u.(googleId := Some(p.sub)) else u;
    var u2 := if Truthy(p.name) && u1.name != p.name then u1.(name := p.name) else u1;
    if Truthy(p.picture) && u2.picture != p.picture then u2.(picture := p.picture) else u2
  }

  /** The flag is raised exactly when an assignment changes the document, so an unchanged account
      is never saved and a changed one always is. Only the Google id, the name and the picture can
      change, and the Google id only when the account had none. */
  lemma ChangedIffDifferent(u: User, p: GooglePayload)
    ensures ProfileChanged(u, p) <==> LinkProfile(u, p) != u
    ensures var v := LinkProfile(u, p);
      v.id == u.id && v.email == u.email && v.phone == u.phone && v.password == u.password
      && v.isEmailVerified == u.isEmailVerified && v.provider == u.provider
      && (Truthy(u.googleId) ==> v.googleId == u.googleId)
      && (!Truthy(u.googleId) && p.sub != "" ==> v.googleId == Some(p.sub))
      && (Truthy(p.name) ==> v.name == p.name) && (!Truthy(p.name) ==> v.name == u.name)
      && (Truthy(p.picture) ==> v.picture == p.picture) && (!Truthy(p.picture) ==> v.picture == u.picture)
  {
  }

  datatype Resolved = Resolved(result: Result<User, DbError>, users: seq<User>, nextId: UserId)

  /** Lines 209-237 with the upsert filter `upsert`: the account the sign-in resolves to and the
      collection afterwards. A failed save or insert can only be a duplicate key here. */
  function ResolveWith(users: seq<User>, nextId: UserId, p: GooglePayload,
                       upsert: (string, Option<string>) -> (User -> bool)): Resolved
  {
    var email := NormalizedEmail(p.email);
    var byId := FindOne(users, ByGoogleId(p.sub));
    var found := if byId.None? && email.Some? then FindOne(users, ByEmail(email.value)) else byId;
    match found
    case None =>
      (match FindOne(users, upsert(p.sub, email))
       case Some(u) => Resolved(Success(u), users, nextId)
       case None =>
         var n := Materialize(nextId, GoogleNewUser(p, email), UNUSED_SALT);
         if Fits(users, n) then Resolved(Success(n), users + [n], nextId + 1)
         else Resolved(Failure(DuplicateKey), users, nextId))
    case Some(u) =>
      if !ProfileChanged(u, p) then Resolved(Success(u), users, nextId)
      else
        var s := SaveSpec(users, LinkProfile(u, p), UNUSED_SALT);
        Resolved(s.result, s.users, nextId)
  }

  /** The lookup as written; the handler below uses this one. */
  function ResolveAsWritten(users: seq<User>, nextId: UserId, p: GooglePayload): Resolved {
    ResolveWith(users, nextId, p, UpsertFilterAsWritten)
  }

  /** The lookup with the corrected upsert filter, which matches on the email only when there is
      one. */
  function Resolve(users: seq<User>, nextId: UserId, p: GooglePayload): Resolved {
    ResolveWith(users, nextId, p, UpsertFilter)
  }

  /** The account is bound to this Google sign-in: it carries the Google id, or the payload's
      (lower-cased, trimmed) email. */
  predicate BoundTo(u: User, p: GooglePayload) {
    u.googleId == Some(p.sub)
    || (NormalizedEmail(p.email).Some? && u.email == Val(Trim(NormalizedEmail(p.email).value)))
  }

  /** As written, a Google account with no email signs in as an unrelated account: the upsert's
      `{ email: null }` matches a phone-only user created by the passcode login. */
  lemma NullEmailUpsertHijacks()
    ensures var phoneUser := User(0, None, Missing, Some("5550100"), None, None, None, false, None);
      var p := GooglePayload("google-42", None, Some("Mallory"), None, true);
      var r := ResolveAsWritten([phoneUser], 1, p);
      r.result == Success(phoneUser) && !BoundTo(phoneUser, p)
  {
    var phoneUser := User(0, None, Missing, Some("5550100"), None, None, None, false, None);
    var p := GooglePayload("google-42", None, Some("Mallory"), None, true);
    assert !ByGoogleId(p.sub)(phoneUser);
    assert FindOne([phoneUser], ByGoogleId(p.sub)) == None;
    assert UpsertFilterAsWritten(p.sub, None)([phoneUser][0]);
  }

  /** The outcome of the found-account branch of `ResolveWith`. */
  function UpdateFound(users: seq<User>, nextId: UserId, u: User, p: GooglePayload): Resolved {
    if !ProfileChanged(u, p) then Resolved(Success(u), users, nextId)
    else
      var s := SaveSpec(users, LinkProfile(u, p), UNUSED_SALT);
      Resolved(s.result, s.users, nextId)
  }

  /** An account found bound to the sign-in stays bound through the update and the save. */
  lemma {:induction false} FoundAccountStaysBound(users: seq<User>, nextId: UserId, p: GooglePayload, i: nat)
    requires SparseUnique(users) && i < |users| && BoundTo(users[i], p)
    ensures var r := UpdateFound(users, nextId, users[i], p);
      (r.result.Success? ==> BoundTo(r.result.value, p) && r.result.value in r.users)
      && (r.result.Failure? ==> r.result.error == DuplicateKey && r.users == users)
      && |r.users| == |users| && r.nextId == nextId
  {
    var u := users[i];
    if ProfileChanged(u, p) {
      var v := LinkProfile(u, p);
      ChangedIffDifferent(u, p);
      SaveLoadedDocument(users, i, v, UNUSED_SALT);
      var email := NormalizedEmail(p.email);
      if email.Some? {
        TrimProperties(email.value);
      }
      var s := SaveSpec(users, v, UNUSED_SALT);
      if s.result.Success? {
        assert s.users[i] == s.result.value;
      }
    }
  }

  /** With the corrected filter every sign-in resolves to an account bound to it; an account that
      already existed keeps its place, and otherwise exactly one account is added. A failure is
      always a duplicate key and leaves the collection as it was. */
  lemma {:induction false} ResolveBindsAccount(users: seq<User>, nextId: UserId, p: GooglePayload)
    requires SparseUnique(users)
    ensures var r := Resolve(users, nextId, p);
      (r.result.Success? ==> BoundTo(r.result.value, p) && r.result.value in r.users)
      && (r.result.Failure? ==> r.result.error == DuplicateKey && r.users == users)
      && (|r.users| == |users| || r.users == users + [r.result.value])
  {
    var email := NormalizedEmail(p.email);
    var byId := FindOne(users, ByGoogleId(p.sub));
    var found := if byId.None? && email.Some? then FindOne(users, ByEmail(email.value)) else byId;
    if found.Some? {
      var i :| 0 <= i < |users| && users[i] == found.value;
      FoundAccountStaysBound(users, nextId, p, i);
      assert Resolve(users, nextId, p) == UpdateFound(users, nextId, found.value, p);
    } else {
      assert FindOne(users, UpsertFilter(p.sub, email)).None? by {
        forall j | 0 <= j < |users|
          ensures !UpsertFilter(p.sub, email)(users[j])
        {
          assert !ByGoogleId(p.sub)(users[j]);
          if email.Some? {
            assert !ByEmail(email.value)(users[j]);
          }
        }
      }
    }
  }

  /** A sign-in whose Google id is already on an account resolves to that account, keeps its id and
      adds no account. */
  lemma {:induction false} KnownGoogleIdResolvesToAccount(users: seq<User>, nextId: UserId, p: GooglePayload, i: nat)
    requires SparseUnique(users) && i < |users| && users[i].googleId == Some(p.sub)
    ensures var r := ResolveAsWritten(users, nextId, p);
      r.nextId == nextId && |r.users| == |users|
      && (r.result.Success? ==> r.result.value.id == users[i].id && r.result.value.googleId == Some(p.sub))
  {
    var byId := FindOne(users, ByGoogleId(p.sub));
    assert ByGoogleId(p.sub)(users[i]);
    var j :| 0 <= j < |users| && users[j] == byId.value;
    assert j == i;
    assert ResolveAsWritten(users, nextId, p) == UpdateFound(users, nextId, users[i], p);
    if ProfileChanged(users[i], p) {
      ChangedIffDifferent(users[i], p);
      SaveLoadedDocument(users, i, LinkProfile(users[i], p), UNUSED_SALT);
    }
  }

  /** A sign-in with an email already on an account that has no Google id yet links that account:
      same id, the Google id set, no account added. */
  lemma {:induction false} KnownEmailLinksAccount(users: seq<User>, nextId: UserId, p: GooglePayload, i: nat)
    requires SparseUnique(users) && i < |users| && p.sub != ""
    requires Truthy(p.email) && users[i].email == Val(Trim(ToLower(p.email.value)))
    requires !Truthy(users[i].googleId)
    requires forall j :: 0 <= j < |users| ==> users[j].googleId != Some(p.sub)
    ensures var r := ResolveAsWritten(users, nextId, p);
      r.nextId == nextId && |r.users| == |users|
      && (r.result.Success? ==> r.result.value.id == users[i].id && r.result.value.googleId == Some(p.sub))
  {
    var email := NormalizedEmail(p.email);
    assert FindOne(users, ByGoogleId(p.sub)).None?;
    assert ByEmail(email.value)(users[i]);
    var found := FindOne(users, ByEmail(email.value));
    var j :| 0 <= j < |users| && users[j] == found.value;
    assert j == i;
    assert ResolveAsWritten(users, nextId, p) == UpdateFound(users, nextId, users[i], p);
    ChangedIffDifferent(users[i], p);
    SaveLoadedDocument(users, i, LinkProfile(users[i], p), UNUSED_SALT);
  }

  /** A sign-in matching no account through the upsert filter as written (so, without an email, only
      when every account has one) creates one: provider "google", the Google id, the lower-cased
      email (null when there is none), the verified flag, the next id. */
  lemma {:induction false} UnknownSignInCreatesAccount(users: seq<User>, nextId: UserId, p: GooglePayload)
    requires forall j :: 0 <= j < |users| ==> users[j].id < nextId
    requires forall j :: 0 <= j < |users| ==> !UpsertFilterAsWritten(p.sub, NormalizedEmail(p.email))(users[j])
    ensures var r := ResolveAsWritten(users, nextId, p);
      var email := NormalizedEmail(p.email);
      r.result.Success?
      && r.users == users + [r.result.value] && r.nextId == nextId + 1
      && r.result.value.id == nextId && r.result.value.provider == Some(Google)
      && r.result.value.googleId == Some(p.sub)
      && r.result.value.email == (if email.Some? then Val(Trim(email.value)) else Null)
      && r.result.value.isEmailVerified == p.emailVerified
  {
    var email := NormalizedEmail(p.email);
    assert FindOne(users, ByGoogleId(p.sub)).None? by {
      forall j | 0 <= j < |users| ensures !ByGoogleId(p.sub)(users[j]) {
        assert !UpsertFilterAsWritten(p.sub, email)(users[j]);
      }
    }
    if email.Some? {
      assert FindOne(users, ByEmail(email.value)).None? by {
        forall j | 0 <= j < |users| ensures !ByEmail(email.value)(users[j]) {
          assert !UpsertFilterAsWritten(p.sub, email)(users[j]);
        }
      }
    }
    GoogleNewUserFits(users, nextId, p);
  }

  /** The `$setOnInsert` document fits next to accounts with older ids that the upsert filter as
      written does not match. */
  lemma GoogleNewUserFits(users: seq<User>, nextId: UserId, p: GooglePayload)
    requires forall j :: 0 <= j < |users| ==> users[j].id < nextId
    requires forall j :: 0 <= j < |users| ==> !UpsertFilterAsWritten(p.sub, NormalizedEmail(p.email))(users[j])
    ensures Fits(users, Materialize(nextId, GoogleNewUser(p, NormalizedEmail(p.email)), UNUSED_SALT))
  {
    var email := NormalizedEmail(p.email);
    var n := Materialize(nextId, GoogleNewUser(p, email), UNUSED_SALT);
    forall j | 0 <= j < |users|
      ensures Compatible(users[j], n)
    {
      assert !UpsertFilterAsWritten(p.sub, email)(users[j]);
    }
  }

  /** As written, a sign-in without an email whose Google id is unknown is answered with an
      existing account without an email, whenever there is one: nothing is inserted and nothing is
      linked. */
  lemma EmaillessSignInTakesExistingAccount(users: seq<User>, nextId: UserId, p: GooglePayload, i: nat)
    requires !Truthy(p.email) && forall j :: 0 <= j < |users| ==> users[j].googleId != Some(p.sub)
    requires i < |users| && !users[i].email.Val?
    ensures var r := ResolveAsWritten(users, nextId, p);
      r.users == users && r.nextId == nextId && r.result.Success?
      && r.result.value in users && !r.result.value.email.Val? && r.result.value.googleId != Some(p.sub)
  {
    assert FindOne(users, ByGoogleId(p.sub)).None? by {
      forall j | 0 <= j < |users| ensures !ByGoogleId(p.sub)(users[j]) {
      }
    }
    assert UpsertFilterAsWritten(p.sub, None)(users[i]);
  }

  datatype GoogleSummary = GoogleSummary(id: UserId, email: Slot, name: Option<string>, picture: Option<string>)

  datatype GoogleSession = GoogleSession(token: Token, user: GoogleSummary)

  /** Lines 274-280: a token whose claims are `{sub, email}`, and the account summary. */
  function GoogleReply(u: User, now: int): Reply<GoogleSession> {
    Ok(200, GoogleSession(Sign(Claims(None, Some(u.id), u.email, None), now),
                          GoogleSummary(u.id, u.email, u.name, u.picture)))
  }

  datatype GoogleOutcome = GoogleOutcome(reply: Reply<GoogleSession>, users: seq<User>, nextId: UserId)

  /** What `googleSignIn` answers and leaves in the collection. */
  function GoogleSignInSpec(users: seq<User>, nextId: UserId, idToken: Option<string>, clientConfigured: bool,
                            ticket: Ticket, now: int, dbUp: bool): GoogleOutcome
  {
    if !Truthy(idToken) then GoogleOutcome(Err(400, "idToken required"), users, nextId)
    else if !clientConfigured then GoogleOutcome(Err(500, "Server misconfiguration"), users, nextId)
    else if ticket.Rejected? then GoogleOutcome(Err(401, "Invalid Google ID token"), users, nextId)
    else if ticket.payload.None? then GoogleOutcome(Err(401, "Invalid Google token payload"), users, nextId)
    else if !dbUp then GoogleOutcome(Err(500, DB_ERROR), users, nextId)
    else
      var r := ResolveAsWritten(users, nextId, ticket.payload.value);
      if r.result.Failure? then GoogleOutcome(Err(409, "Duplicate key error creating user"), r.users, r.nextId)
      else GoogleOutcome(GoogleReply(r.result.value, now), r.users, r.nextId)
  }

  /** The gates come first and in order; none of them touches the collection, and neither does an
      unreachable database. */
  lemma GoogleGates(users: seq<User>, nextId: UserId, idToken: Option<string>, clientConfigured: bool,
                    ticket: Ticket, now: int, dbUp: bool)
    ensures var o := GoogleSignInSpec(users, nextId, idToken, clientConfigured, ticket, now, dbUp);
      (!Truthy(idToken) ==> o.reply == Err(400, "idToken required"))
      && (Truthy(idToken) && !clientConfigured ==> o.reply == Err(500, "Server misconfiguration"))
      && (Truthy(idToken) && clientConfigured && ticket.Rejected? ==> o.reply == Err(401, "Invalid Google ID token"))
      && (Truthy(idToken) && clientConfigured && ticket == Verified(None) ==> o.reply == Err(401, "Invalid Google token payload"))
      && (Truthy(idToken) && clientConfigured && ticket.Verified? && ticket.payload.Some? && !dbUp ==> o.reply == Err(500, DB_ERROR))
      && (o.reply.Err? && o.reply.status != 409 ==> o.users == users && o.nextId == nextId)
  {
  }

  /** Line 263: the answer when the lookups fail and the fallback `User.create` fails too. */
  const DB_ERROR: string := "Database error on user lookup/create"

  /** `googleSignIn`. `dbUp` says whether the database answers: when it does not, the lookups throw,
      the fallback `User.create` of lines 246-253 throws as well and the handler answers 500. A
      failed insert or save answers 409: with the database up both can only fail on a unique index
      (see `FoundAccountStaysBound`). */
  method GoogleSignIn(store: UserStore, idToken: Option<string>, clientConfigured: bool, ticket: Ticket, now: int,
                      dbUp: bool)
    returns (reply: Reply<GoogleSession>)
    requires store.Valid()
    modifies store
    ensures store.Valid()
    ensures GoogleOutcome(reply, store.users, store.nextId)
         == GoogleSignInSpec(old(store.users), old(store.nextId), idToken, clientConfigured, ticket, now, dbUp)
  {
    if !Truthy(idToken) {
      return Err(400, "idToken required");
    }
    if !clientConfigured {
      return Err(500, "Server misconfiguration");
    }
    if ticket.Rejected? {
      return Err(401, "Invalid Google ID token");
    }
    if ticket.payload.None? {
      return Err(401, "Invalid Google token payload");
    }
    if !dbUp {
      return Err(500, DB_ERROR);
    }
    var resolved := ResolveAccount(store, ticket.payload.value);
    if resolved.Failure? {
      return Err(409, "Duplicate key error creating user");
    }
    reply := GoogleReply(resolved.value, now);
  }

  /** Lines 209-237: look the account up by Google id, then by email, then by the upsert filter;
      create it when none matches, otherwise link and save the profile. */
  method ResolveAccount(store: UserStore, p: GooglePayload) returns (result: Result<User, DbError>)
    requires store.Valid()
    modifies store
    ensures store.Valid()
    ensures Resolved(result, store.users, store.nextId) == ResolveAsWritten(old(store.users), old(store.nextId), p)
  {
    var googleId := p.sub;
    var email := NormalizedEmail(p.email);
    var user := FindOne(store.users, ByGoogleId(googleId));
    if user.None? && email.Some? {
      user := FindOne(store.users, ByEmail(email.value));
    }
    if user.Some? {
      result := UpdateAccount(store, user.value, p);
      return;
    }
    match FindOne(store.users, UpsertFilterAsWritten(googleId, email))
    case Some(u) =>
      result := Success(u);
    case None =>
      result := store.Create(GoogleNewUser(p, email), UNUSED_SALT);
  }

  /** Lines 232-236: the profile assignments, and a save only when one of them changed the
      document. */
  method UpdateAccount(store: UserStore, user: User, p: GooglePayload) returns (result: Result<User, DbError>)
    requires store.Valid()
    modifies store
    ensures store.Valid()
    ensures Resolved(result, store.users, store.nextId) == UpdateFound(old(store.users), old(store.nextId), user, p)
  {
    var u := user;
    var changed := false;
    if !Truthy(u.googleId) && p.sub != "" {
      u := u.(googleId := Some(p.sub));
      changed := true;
    }
    if Truthy(p.name) && u.name != p.name {
      u := u.(name := p.name);
      changed := true;
    }
    if Truthy(p.picture) && u.picture != p.picture {
      u := u.(picture := p.picture);
      changed := true;
    }
    assert u == LinkProfile(user, p) && (changed <==> ProfileChanged(user, p));
    if !changed {
      return Success(user);
    }
    result := store.Save(u, UNUSED_SALT);
  }
}
