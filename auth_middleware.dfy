/** The bearer-token guard of middleware/authMiddleware.js, and `getMe` of
    src/controllers/authController.js, the profile route behind it. Token verification is a
    parameter `decode` (signature checking is not modelled): it yields the signed token or nothing;
    expiry is checked against the explicit clock. */
module AuthMiddleware {
  import opened Wrappers
  import opened Text
  import opened Http
  import opened Users
  import opened Jwt

  predicate NoSpace(s: string) {
    forall j :: 0 <= j < |s| ==> s[j] != ' '
  }

  /** The index of the first space of `s`. */
  function SpaceIndex(s: string): (r: Option<nat>)
    ensures r.Some? ==> r.value < |s| && s[r.value] == ' ' && NoSpace(s[..r.value])
    ensures r.None? ==> NoSpace(s)
  {
    if s == [] then None
    else if s[0] == ' ' then Some(0)
    else match SpaceIndex(s[1..])
      case None => None
      case Some(i) => assert s[..i + 1] == [s[0]] + s[1..][..i]; Some(i + 1)
  }

  /** `header.split(" ")[1]`: the text between the first and the second space, or to the end when
      there is one space; nothing (`undefined`) when there is none. */
  function SecondField(s: string): Option<string> {
    match SpaceIndex(s)
    case None => None
    case Some(i) =>
      var rest := s[i + 1..];
      match SpaceIndex(rest)
      case None => Some(rest)
      case Some(j) => Some(rest[..j])
  }

  /** The token is the second space-separated field of the header, whatever follows it. */
  lemma SecondFieldOf(scheme: string, token: string, tail: string)
    requires NoSpace(scheme) && NoSpace(token)
    ensures SecondField(scheme + " " + token) == Some(token)
    ensures SecondField(scheme + " " + token + " " + tail) == Some(token)
    ensures SecondField(scheme) == None
  {
    SecondFieldAlone(scheme, token);
    SecondFieldBeforeTail(scheme, token, tail);
    NoSpaceNoIndex(scheme);
  }

  lemma NoSpaceNoIndex(s: string)
    requires NoSpace(s)
    ensures SpaceIndex(s) == None
  {
  }

  lemma SecondFieldAlone(scheme: string, token: string)
    requires NoSpace(scheme) && NoSpace(token)
    ensures SecondField(scheme + " " + token) == Some(token)
  {
    NoSpaceNoIndex(token);
    SecondFieldAfter(scheme, token);
    assert scheme + " " + token == scheme + [' '] + token;
  }

  lemma SecondFieldBeforeTail(scheme: string, token: string, tail: string)
    requires NoSpace(scheme) && NoSpace(token)
    ensures SecondField(scheme + " " + token + " " + tail) == Some(token)
  {
    var rest := token + (" " + tail);
    FirstSpaceAt(token, " " + tail);
    assert rest[..|token|] == token;
    SecondFieldAfter(scheme, rest);
    assert scheme + " " + token + " " + tail == scheme + [' '] + rest;
  }

  /** After a space-free first field, the second field is read from what follows its space. */
  lemma SecondFieldAfter(a: string, rest: string)
    requires NoSpace(a)
    ensures SecondField(a + [' '] + rest) == match SpaceIndex(rest)
      case None => Some(rest)
      case Some(j) => Some(rest[..j])
  {
    FirstSpaceAt(a, [' '] + rest);
    assert a + [' '] + rest == a + ([' '] + rest);
    assert (a + [' '] + rest)[|a| + 1..] == rest;
  }

  lemma {:induction false} FirstSpaceAt(a: string, b: string)
    requires NoSpace(a) && b != [] && b[0] == ' '
    ensures SpaceIndex(a + b) == Some(|a|)
    decreases |a|
  {
    if a != [] {
      assert (a + b)[1..] == a[1..] + b;
      FirstSpaceAt(a[1..], b);
    }
  }

  /** `decoded.id || decoded.sub`: passcode and password tokens carry `id`, Google tokens `sub`. */
  function ClaimedUserId(c: Claims): Option<UserId> {
    if c.id.Some? then c.id else c.sub
  }

  /** The guard's verdict: an error reply, or `next()` with `req.user` as found. */
  datatype Verdict = Reject(status: nat, message: string) | Next(user: Option<User>)

  const NO_TOKEN: string := "Not authorized, no token"
  const TOKEN_FAILED: string := "Not authorized, token failed"

  /** `authMiddleware`. `dbUp` says whether `findById` answers. */
  function Authenticate(header: Option<string>, decode: string -> Option<Token>, now: int,
                        users: seq<User>, dbUp: bool): Verdict
  {
    if !Truthy(header) || !StartsWith(header.value, "Bearer") then Reject(401, NO_TOKEN)
    else
      var token := SecondField(header.value);
      if !Truthy(token) then Reject(401, TOKEN_FAILED)
      else match decode(token.value)
        case None => Reject(401, TOKEN_FAILED)
        case Some(t) =>
          if !Unexpired(t, now) || !dbUp then Reject(401, TOKEN_FAILED)
          else Next(FindById(users, ClaimedUserId(t.claims)))
  }

  /** No header, or one not starting with "Bearer", is refused as "no token". */
  lemma MissingBearer(header: Option<string>, decode: string -> Option<Token>, now: int, users: seq<User>, dbUp: bool)
    requires header.None? || !StartsWith(header.value, "Bearer")
    ensures Authenticate(header, decode, now, users, dbUp) == Reject(401, NO_TOKEN)
  {
  }

  /** A header "Bearer <token>" whose token decodes, has not expired and names a stored account by
      its `id` claim (passcode and password logins) or its `sub` claim (Google) lets the request
      through with that account; a token that does not decode or has expired is refused as "token
      failed". */
  lemma {:induction false} BearerTokenResolves(token: string, t: Token, decode: string -> Option<Token>, now: int,
                                               users: seq<User>, i: nat)
    requires token != "" && NoSpace(token) && decode(token) == Some(t)
    requires SparseUnique(users) && i < |users| && ClaimedUserId(t.claims) == Some(users[i].id)
    ensures Authenticate(Some("Bearer " + token), decode, now, users, true)
         == if Unexpired(t, now) then Next(Some(users[i])) else Reject(401, TOKEN_FAILED)
  {
    BearerHeader(token);
    var found := FindById(users, Some(users[i].id));
    var j :| 0 <= j < |users| && users[j] == found.value;
    assert j == i;
  }

  /** "Bearer <token>" passes the scheme test and yields the token. */
  lemma BearerHeader(token: string)
    requires token != "" && NoSpace(token)
    ensures StartsWith("Bearer " + token, "Bearer") && SecondField("Bearer " + token) == Some(token)
  {
    SecondFieldAlone("Bearer", token);
    assert "Bearer" + " " + token == "Bearer " + token;
    assert ("Bearer " + token)[..6] == "Bearer";
  }

  /** Every login issues a token the guard resolves: the `id` claims of the passcode and password
      logins and the `sub` claim of the Google sign-in all name the account. */
  lemma LoginClaimsResolve(id: UserId, email: Slot)
    ensures ClaimedUserId(IdClaims(id)) == Some(id)
    ensures ClaimedUserId(Claims(None, Some(id), email, None)) == Some(id)
  {
  }

  /** The fallback token of a passcode login whose database step failed carries only the
      identifier: the guard lets it through, but with no user. */
  lemma FallbackTokenUnresolvable(identifier: string, token: string, t: Token, decode: string -> Option<Token>,
                                  now: int, users: seq<User>)
    requires token != "" && NoSpace(token) && decode(token) == Some(t) && Unexpired(t, now)
    requires t.claims == Claims(None, None, Missing, Some(identifier))
    ensures Authenticate(Some("Bearer " + token), decode, now, users, true) == Next(None)
  {
    BearerHeader(token);
  }

  /** The request as the guard sees it: `req.user`, the reply sent, and how often `next` ran. */
  class RequestContext {
    var user: Option<User>
    var response: Option<Reply<()>>
    var nextCalls: nat

    constructor ()
      ensures user.None? && response.None? && nextCalls == 0
    {
      user := None;
      response := None;
      nextCalls := 0;
    }

    /** Runs the guard: on a refusal a reply is sent and `next` is not called; otherwise `req.user`
        is set and `next` is called exactly once. */
    method Guard(header: Option<string>, decode: string -> Option<Token>, now: int, users: seq<User>, dbUp: bool)
      modifies this
      ensures match Authenticate(header, decode, now, users, dbUp)
        case Reject(s, m) => response == Some(Err(s, m)) && user == old(user) && nextCalls == old(nextCalls)
        case Next(u) => user == u && nextCalls == old(nextCalls) + 1 && response == old(response)
    {
      var verdict := Authenticate(header, decode, now, users, dbUp);
      match verdict
      case Reject(s, m) =>
        response := Some(Err(s, m));
      case Next(u) =>
        user := u;
        nextCalls := nextCalls + 1;
    }
  }

  /** The profile `getMe` returns: no password. */
  datatype Profile = Profile(id: UserId, name: Option<string>, email: Slot, phone: Option<string>,
                             avatar: Option<string>, isEmailVerified: bool, provider: Option<Provider>)

  /** `getMe`: `req.user._id` throws when the guard found no user (500); a user no longer stored is
      404; otherwise the profile, with the picture as `avatar`. */
  function GetMe(reqUser: Option<User>, users: seq<User>, dbUp: bool): Reply<Profile> {
    if reqUser.None? || !dbUp then Err(500, "Server error fetching user profile")
    else match FindById(users, Some(reqUser.value.id))
      case None => Err(404, "User not found")
      case Some(u) => Ok(200, Profile(u.id, u.name, u.email, u.phone, u.picture, u.isEmailVerified, u.provider))
  }

  /** Behind the guard, a resolved token yields the profile of the account it names; the fallback
      token's request has no user, and `getMe` fails with 500. */
  lemma {:induction false} GetMeAfterGuard(users: seq<User>, i: nat)
    requires SparseUnique(users) && i < |users|
    ensures GetMe(Some(users[i]), users, true).Ok?
    ensures var u := users[i];
      GetMe(Some(u), users, true).body == Profile(u.id, u.name, u.email, u.phone, u.picture, u.isEmailVerified, u.provider)
    ensures GetMe(None, users, true) == Err(500, "Server error fetching user profile")
  {
    var found := FindById(users, Some(users[i].id));
    var j :| 0 <= j < |users| && users[j] == found.value;
    assert j == i;
  }
}
