/** The user model of models/user.js: the record's shape and defaults, the sparse unique indexes on
    email, phone and googleId, the pre-save password hashing hook and `matchPassword`. The
    collection is a class whose `users` sequence the create and save operations update. */
module Users {
  import opened Wrappers
  import opened Text
  import Bcrypt

  type UserId = nat

  /** The `provider` enum; a user without a provider holds `None` (null). */
  datatype Provider = Google | OtpLogin | PasswordLogin

  /** A field under a sparse unique index. An absent field is not indexed, but an explicit null is:
      two documents holding `email: null` collide like two holding the same address. */
  datatype Slot = Missing | Null | Val(s: string) {
    predicate Indexed() { !Missing? }
    predicate Truthy() { Val? && s != "" }
  }

  datatype User = User(
    id: UserId,
    name: Option<string>,
    email: Slot,
    phone: Option<string>,
    googleId: Option<string>,
    picture: Option<string>,
    password: Option<string>,
    isEmailVerified: bool,
    provider: Option<Provider>)

  /** What a caller hands to `User.create` or to an upsert's `$setOnInsert`; `None` = not given. */
  datatype NewUser = NewUser(
    name: Option<string>,
    email: Slot,
    phone: Option<string>,
    googleId: Option<string>,
    picture: Option<string>,
    password: Option<string>,
    isEmailVerified: Option<bool>,
    provider: Option<Provider>)

  const NoFields: NewUser := NewUser(None, Missing, None, None, None, None, None, None)

  datatype DbError = DuplicateKey | HashError | NotFound

  /** The salt handed to `Create` for documents created without a password (OTP and Google users):
      the pre-save hook only hashes a password that was set, so this salt is never used. */
  const UNUSED_SALT: Bcrypt.Salt := "......................"

  /** The `trim: true` setter of the email and phone paths. */
  function TrimSlot(s: Slot): Slot {
    if s.Val? then Val(Trim(s.s)) else s
  }

  function TrimOption(s: Option<string>): Option<string> {
    if s.Some? then Some(Trim(s.value)) else None
  }

  /** The document `User.create(fields)` writes: schema defaults fill what is not given, the trim
      setters run, and the pre-save hook hashes a password that was set. */
  function Materialize(id: UserId, n: NewUser, salt: Bcrypt.Salt): User {
    User(id, n.name, TrimSlot(n.email), TrimOption(n.phone), n.googleId, n.picture,
         if n.password.Some? then Some(Bcrypt.Hash(n.password.value, salt)) else None,
         n.isEmailVerified.GetOr(false), n.provider)
  }

  /** Defaults: no name, picture or password, email not verified, no provider. */
  lemma MaterializeDefaults(id: UserId, salt: Bcrypt.Salt)
    ensures var u := Materialize(id, NoFields, salt);
      u.name.None? && u.picture.None? && u.password.None? && !u.isEmailVerified
      && u.provider.None? && u.email == Missing && u.phone.None? && u.googleId.None?
  {
  }

  /** Stored email and phone are trimmed. */
  lemma MaterializeTrims(id: UserId, n: NewUser, salt: Bcrypt.Salt)
    ensures var u := Materialize(id, n, salt);
      (u.email.Val? ==> IsTrimmed(u.email.s)) && (u.phone.Some? ==> IsTrimmed(u.phone.value))
  {
    if n.email.Val? { TrimProperties(n.email.s); }
    if n.phone.Some? { TrimProperties(n.phone.value); }
  }

  /** Two documents can sit side by side in the collection: distinct ids, and no indexed email,
      phone or googleId in common. */
  predicate Compatible(a: User, b: User) {
    a.id != b.id
    && (a.email.Indexed() ==> a.email != b.email)
    && (a.phone.Some? ==> a.phone != b.phone)
    && (a.googleId.Some? ==> a.googleId != b.googleId)
  }

  ghost predicate SparseUnique(users: seq<User>) {
    forall i, j :: 0 <= i < |users| && 0 <= j < |users| && i != j ==> Compatible(users[i], users[j])
  }

  /** `u` can be inserted next to every document of `users` without a duplicate-key error. */
  predicate Fits(users: seq<User>, u: User) {
    forall i :: 0 <= i < |users| ==> Compatible(users[i], u)
  }

  /** `u` can replace the document at index `k` without a duplicate-key error. */
  predicate FitsExcept(users: seq<User>, k: nat, u: User) {
    forall i :: 0 <= i < |users| && i != k ==> Compatible(users[i], u)
  }

  /** The sparse unique indexes, stated field by field: no two users share a non-null email, a
      phone or a googleId, while any number of users may lack them. */
  lemma SparseUniqueFields(users: seq<User>, i: nat, j: nat)
    requires SparseUnique(users) && i < |users| && j < |users| && i != j
    ensures users[i].email.Val? ==> users[i].email != users[j].email
    ensures users[i].phone.Some? ==> users[i].phone != users[j].phone
    ensures users[i].googleId.Some? ==> users[i].googleId != users[j].googleId
    ensures users[i].id != users[j].id
  {
  }

  /** Inserting a document that fits keeps the indexes unique. */
  lemma {:induction false} InsertKeepsUnique(users: seq<User>, u: User)
    requires SparseUnique(users) && Fits(users, u)
    ensures SparseUnique(users + [u])
  {
    var s := users + [u];
    forall i, j | 0 <= i < |s| && 0 <= j < |s| && i != j
      ensures Compatible(s[i], s[j])
    {
      if i == |users| {
        assert Compatible(users[j], u);
      } else if j == |users| {
        assert Compatible(users[i], u);
      } else {
        assert Compatible(users[i], users[j]);
      }
    }
  }

  /** Replacing a document by one that fits the others keeps the indexes unique. */
  lemma {:induction false} ReplaceKeepsUnique(users: seq<User>, k: nat, u: User)
    requires SparseUnique(users) && k < |users| && FitsExcept(users, k, u)
    ensures SparseUnique(users[k := u])
  {
    var s := users[k := u];
    forall i, j | 0 <= i < |s| && 0 <= j < |s| && i != j
      ensures Compatible(s[i], s[j])
    {
      if i == k {
        assert Compatible(users[j], u);
      } else if j == k {
        assert Compatible(users[i], u);
      } else {
        assert Compatible(users[i], users[j]);
      }
    }
  }

  /** The index of the first document (in insertion order) that satisfies `p`. */
  function FindIndex(users: seq<User>, p: User -> bool): (r: Option<nat>)
    ensures r.Some? ==> r.value < |users| && p(users[r.value])
    ensures r.Some? ==> forall j :: 0 <= j < r.value ==> !p(users[j])
    ensures r.None? ==> forall j :: 0 <= j < |users| ==> !p(users[j])
  {
    if users == [] then None
    else if p(users[0]) then Some(0)
    else match FindIndex(users[1..], p)
      case None => None
      case Some(k) => Some(k + 1)
  }

  /** `findOne(filter)`: the first document matching the filter, if any. */
  function FindOne(users: seq<User>, p: User -> bool): (r: Option<User>)
    ensures r.Some? <==> exists j :: 0 <= j < |users| && p(users[j])
    ensures r.Some? ==> r.value in users && p(r.value)
  {
    match FindIndex(users, p)
    case None => None
    case Some(k) => Some(users[k])
  }

  /** The filter `{ _id: id }` of `findById`. */
  function ById(id: UserId): User -> bool {
    (u: User) => u.id == id
  }

  /** The filter `{ googleId }`. */
  function ByGoogleId(googleId: string): User -> bool {
    (u: User) => u.googleId == Some(googleId)
  }

  /** The filter `{ email }`; the schema's trim setter applies to the query value too. */
  function ByEmail(email: string): User -> bool {
    (u: User) => u.email == Val(Trim(email))
  }

  /** `findById(id)`: with no id at all (`findById(undefined)`) nothing is found. */
  function FindById(users: seq<User>, id: Option<UserId>): (r: Option<User>)
    ensures r.Some? ==> id.Some? && r.value in users && r.value.id == id.value
    ensures id.Some? && (exists j :: 0 <= j < |users| && users[j].id == id.value) ==> r.Some?
  {
    if id.None? then None else FindOne(users, ById(id.value))
  }

  /** The pre-save hook and setters, for a save of `u` over the stored `stored`: the password is
      hashed only when it was modified (assigned a different value); re-saving an unchanged password
      does not hash it twice. A password modified to null makes `bcrypt.hash` throw. */
  function PreSave(stored: User, u: User, salt: Bcrypt.Salt): Result<User, DbError> {
    var trimmed := u.(email := TrimSlot(u.email), phone := TrimOption(u.phone));
    if u.password == stored.password then Success(trimmed)
    else if u.password.None? then Failure(HashError)
    else Success(trimmed.(password := Some(Bcrypt.Hash(u.password.value, salt))))
  }

  /** `user.matchPassword(entered)`: `bcrypt.compare(entered, this.password)`, which throws when
      either side is missing. */
  function MatchPassword(u: User, entered: Option<string>): Result<bool, DbError> {
    if entered.None? || u.password.None? then Failure(HashError)
    else Success(Bcrypt.Compare(entered.value, u.password.value))
  }

  /** Round trip with the pre-save hook: a user created with password `p` matches exactly `p`. */
  lemma PasswordRoundTrip(id: UserId, n: NewUser, p: string, q: string, salt: Bcrypt.Salt)
    requires n.password == Some(p)
    ensures MatchPassword(Materialize(id, n, salt), Some(q)) == Success(q == p)
  {
    Bcrypt.CompareOnlyOwnHash(q, p, salt);
  }

  /** Re-saving a user whose password was not touched leaves the stored hash, and so every login
      outcome, as it was. */
  lemma ResaveKeepsPassword(stored: User, u: User, salt: Bcrypt.Salt, q: Option<string>)
    requires u.password == stored.password
    ensures PreSave(stored, u, salt).Success?
    ensures PreSave(stored, u, salt).value.password == stored.password
    ensures MatchPassword(PreSave(stored, u, salt).value, q) == MatchPassword(stored, q)
  {
  }

  /** Setting a new password on save stores its hash, which then matches exactly that password. */
  lemma ChangedPasswordIsHashed(stored: User, u: User, p: string, q: string, salt: Bcrypt.Salt)
    requires u.password == Some(p) && stored.password != Some(p)
    ensures PreSave(stored, u, salt).Success?
    ensures MatchPassword(PreSave(stored, u, salt).value, Some(q)) == Success(q == p)
  {
    Bcrypt.CompareOnlyOwnHash(q, p, salt);
  }

  datatype Saved = Saved(result: Result<User, DbError>, users: seq<User>)

  /** `user.save()` over the collection `users`: the document with `u`'s id goes through the
      pre-save hook and is replaced, unless that would break a unique index. */
  function SaveSpec(users: seq<User>, u: User, salt: Bcrypt.Salt): Saved {
    match FindIndex(users, (x: User) => x.id == u.id)
    case None => Saved(Failure(NotFound), users)
    case Some(k) =>
      match PreSave(users[k], u, salt)
      case Failure(e) => Saved(Failure(e), users)
      case Success(v) =>
        if FitsExcept(users, k, v) then Saved(Success(v), users[k := v])
        else Saved(Failure(DuplicateKey), users)
  }

  /** Saving a document loaded from the collection, without touching its password, can only fail
      on a unique index; on success it replaces that very document, keeping its position. */
  lemma {:induction false} SaveLoadedDocument(users: seq<User>, i: nat, u: User, salt: Bcrypt.Salt)
    requires SparseUnique(users) && i < |users| && u.id == users[i].id && u.password == users[i].password
    ensures var s := SaveSpec(users, u, salt);
      (s.result.Failure? ==> s.result.error == DuplicateKey && s.users == users)
      && (s.result.Success? ==>
            s.users == users[i := s.result.value] && s.result.value.id == u.id
            && s.result.value.googleId == u.googleId && s.result.value.name == u.name
            && s.result.value.email == TrimSlot(u.email))
  {
    var p := (x: User) => x.id == u.id;
    var f := FindIndex(users, p);
    assert p(users[i]);
    assert f.Some?;
    if f.value != i {
      SparseUniqueFields(users, i, f.value);
    }
  }

  /** The users collection. */
  class UserStore {
    var users: seq<User>
    var nextId: UserId

    ghost predicate Valid()
      reads this
    {
      SparseUnique(users) && forall i :: 0 <= i < |users| ==> users[i].id < nextId
    }

    constructor ()
      ensures Valid() && users == [] && nextId == 0
    {
      users := [];
      nextId := 0;
    }

    /** `User.create(fields)`: inserts the materialised document, or fails with a duplicate-key
        error (E11000) and inserts nothing. */
    method Create(n: NewUser, salt: Bcrypt.Salt) returns (r: Result<User, DbError>)
      requires Valid()
      modifies this
      ensures Valid()
      ensures var u := Materialize(old(nextId), n, salt);
        if Fits(old(users), u)
        then r == Success(u) && users == old(users) + [u] && nextId == old(nextId) + 1
        else r == Failure(DuplicateKey) && users == old(users) && nextId == old(nextId)
    {
      var u := Materialize(nextId, n, salt);
      if Fits(users, u) {
        InsertKeepsUnique(users, u);
        users := users + [u];
        nextId := nextId + 1;
        r := Success(u);
      } else {
        r := Failure(DuplicateKey);
      }
    }

    /** `user.save()` on a document loaded earlier: runs the pre-save hook and replaces the stored
        document with the same id, unless that would break an index. */
    method Save(u: User, salt: Bcrypt.Salt) returns (r: Result<User, DbError>)
      requires Valid()
      modifies this
      ensures Valid() && nextId == old(nextId)
      ensures Saved(r, users) == SaveSpec(old(users), u, salt)
    {
      var found := FindIndex(users, (x: User) => x.id == u.id);
      if found.None? {
        return Failure(NotFound);
      }
      var k := found.value;
      var saved := PreSave(users[k], u, salt);
      if saved.Failure? {
        return Failure(saved.error);
      }
      var v := saved.value;
      if FitsExcept(users, k, v) {
        ReplaceKeepsUnique(users, k, v);
        users := users[k := v];
        r := Success(v);
      } else {
        r := Failure(DuplicateKey);
      }
    }
  }
}
