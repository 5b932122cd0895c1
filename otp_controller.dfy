/** The one-time-passcode login of src/controllers/authController.js: the cache keys of a challenge,
    `requestOtp` (cooldown gate, store, send, roll back on a failed send) and `verifyOtpHandler`
    (count the attempt, cap the attempts, compare, purge, find or create the user, issue a token).
    Each handler is a method over the cache (and the user store), proved equal to a function of the
    old state; the properties of those functions are lemmas here and in OtpProperties. */
module OtpController {
  import opened Wrappers
  import opened Text
  import opened Http
  import opened TtlCache
  import opened Users
  import opened Jwt
  import Bcrypt
  import OtpUtils

  /** Configuration defaults: `OTP_TTL_SECONDS`, `OTP_RESEND_COOLDOWN_SECONDS`, `OTP_MAX_ATTEMPTS`. */
  const OTP_TTL: nat := 300
  const OTP_RESEND_COOLDOWN: nat := 30
  const OTP_MAX_ATTEMPTS: nat := 5

  const OTP_SENT_MESSAGE: string := "OTP sent if the identifier exists."

  datatype Channel = Sms | Email

  function ChannelName(c: Channel): string {
    if c == Sms then "sms" else "email"
  }

  /** `via === "email" ? "email" : "sms"`, where `via` defaults to "sms" when absent. */
  function ChannelOf(via: Option<string>): (c: Channel)
    ensures c == Email <==> via == Some("email")
  {
    if via == Some("email") then Email else Sms
  }

  /** The three facts a challenge keeps in the cache. */
  datatype KeyKind = Code | Attempts | Cooldown

  function KindPrefix(kind: KeyKind): string {
    match kind
    case Code => "otp:"
    case Attempts => "otp:attempts:"
    case Cooldown => "otp:cooldown:"
  }

  /** `otpKey`, `attemptsKey` and `cooldownKey`: `otp:<via>:<id>`, `otp:attempts:<via>:<id>`,
      `otp:cooldown:<via>:<id>`. */
  function Key(kind: KeyKind, ch: Channel, id: string): string {
    KindPrefix(kind) + ChannelName(ch) + ":" + id
  }

  function OtpKey(ch: Channel, id: string): string { Key(Code, ch, id) }
  function AttemptsKey(ch: Channel, id: string): string { Key(Attempts, ch, id) }
  function CooldownKey(ch: Channel, id: string): string { Key(Cooldown, ch, id) }

  /** Keys never collide: a key determines its kind, its channel and its identifier. So the three
      keys of one (channel, identifier) pair are pairwise distinct, and no operation on one pair
      touches the keys of another. */
  lemma {:induction false} KeyInjective(k1: KeyKind, c1: Channel, id1: string, k2: KeyKind, c2: Channel, id2: string)
    ensures Key(k1, c1, id1) == Key(k2, c2, id2) <==> k1 == k2 && c1 == c2 && id1 == id2
  {
    var s1, s2 := Key(k1, c1, id1), Key(k2, c2, id2);
    if s1 == s2 {
      assert s1[4] == s2[4];
      assert k1 == k2;
      var n := |KindPrefix(k1)|;
      assert s1[n] == s2[n];
      assert c1 == c2;
      var m := n + |ChannelName(c1)| + 1;
      assert s1[m..] == id1 && s2[m..] == id2;
    }
  }

  lemma ChallengeKeysDistinct(ch: Channel, id: string)
    ensures OtpKey(ch, id) != AttemptsKey(ch, id)
    ensures OtpKey(ch, id) != CooldownKey(ch, id)
    ensures AttemptsKey(ch, id) != CooldownKey(ch, id)
  {
    KeyInjective(Code, ch, id, Attempts, ch, id);
    KeyInjective(Code, ch, id, Cooldown, ch, id);
    KeyInjective(Attempts, ch, id, Cooldown, ch, id);
  }

  // ---------------------------------------------------------------------------------------------
  // requestOtp

  datatype OtpRequestBody = OtpRequestBody(phone: Option<string>, email: Option<string>, via: Option<string>)

  /** One call of the delivery gateway: `sendOtpSms(phone, otp)` or `sendOtpEmail(email, otp)`. */
  datatype Delivery = Delivery(channel: Channel, to: Option<string>, code: string)

  predicate HasIdentifier(phone: Option<string>, email: Option<string>) {
    Truthy(phone) || Truthy(email)
  }

  /** `phone ?? email`, as the request side uses it: raw, not trimmed. A phone that is present wins,
      even an empty one and even when the channel is email. */
  function RawIdentifier(phone: Option<string>, email: Option<string>): (id: string)
    requires HasIdentifier(phone, email)
    ensures phone.Some? ==> id == phone.value
    ensures phone.None? ==> id == email.value
  {
    Coalesce(phone, email).value
  }

  /** Lines 41-47: the hash under the passcode key with the passcode TTL, the attempt counter
      cleared, the cooldown marker with the cooldown TTL. */
  function IssueChallenge(m: Store, now: int, ch: Channel, id: string, hashed: string): Store {
    (m[OtpKey(ch, id) := Entry(hashed, now + OTP_TTL)] - {AttemptsKey(ch, id)})
      [CooldownKey(ch, id) := Entry("1", now + OTP_RESEND_COOLDOWN)]
  }

  datatype RequestOutcome = RequestOutcome(reply: Reply<string>, store: Store, sent: Option<Delivery>)

  /** What `requestOtp` answers, leaves in the cache and sends, for the passcode `code` it draws,
      the bcrypt salt it draws and the gateway's verdict on each delivery. */
  function RequestOtpSpec(m: Store, now: int, body: OtpRequestBody, code: string, salt: Bcrypt.Salt,
                          gateway: Delivery -> bool): RequestOutcome
  {
    if !HasIdentifier(body.phone, body.email) then
      RequestOutcome(Err(400, "phone or email required"), m, None)
    else
      var id := RawIdentifier(body.phone, body.email);
      var ch := ChannelOf(body.via);
      if Truthy(Lookup(m, CooldownKey(ch, id))) then
        RequestOutcome(Err(429, "Please wait before resending OTP"), m, None)
      else
        var issued := IssueChallenge(m, now, ch, id, OtpUtils.HashOtp(code, salt));
        var d := Delivery(ch, if ch == Sms then body.phone else body.email, code);
        if gateway(d) then RequestOutcome(Ok(200, OTP_SENT_MESSAGE), issued, Some(d))
        else RequestOutcome(Err(500, "Failed to send OTP"), issued - {OtpKey(ch, id), CooldownKey(ch, id)}, Some(d))
  }

  function CodeOf(sent: Option<Delivery>): string {
    if sent.Some? then sent.value.code else ""
  }

  /** `generateNumericOtp(OTP_LENGTH)` at the configured length, which is always in range. */
  method DrawOtp() returns (otp: string)
    ensures OtpUtils.IsNumericOtp(otp, OtpUtils.OTP_LENGTH)
  {
    OtpUtils.GenerableLengths();
    var generated := OtpUtils.GenerateNumericOtp(OtpUtils.OTP_LENGTH);
    otp := generated.value;
  }

  /** `requestOtp`. The passcode is drawn by `generateNumericOtp`; `salt` is what `bcrypt.genSalt`
      returns and `gateway` says whether a delivery succeeds. */
  method RequestOtp(cache: Cache, body: OtpRequestBody, salt: Bcrypt.Salt, gateway: Delivery -> bool)
    returns (reply: Reply<string>, sent: Option<Delivery>)
    requires cache.Valid()
    modifies cache
    ensures cache.Valid() && cache.now == old(cache.now)
    ensures sent.Some? ==> OtpUtils.IsNumericOtp(sent.value.code, OtpUtils.OTP_LENGTH)
    ensures RequestOutcome(reply, cache.entries, sent)
         == RequestOtpSpec(old(cache.entries), cache.now, body, CodeOf(sent), salt, gateway)
  {
    if !HasIdentifier(body.phone, body.email) {
      return Err(400, "phone or email required"), None;
    }
    var identifier := RawIdentifier(body.phone, body.email);
    var channel := ChannelOf(body.via);

    var cd := cache.Get(CooldownKey(channel, identifier));
    if Truthy(cd) {
      return Err(429, "Please wait before resending OTP"), None;
    }

    var otp := DrawOtp();
    var hashed := OtpUtils.HashOtp(otp, salt);

    IssueOtp(cache, channel, identifier, hashed);

    var d := Delivery(channel, if channel == Sms then body.phone else body.email, otp);
    sent := Some(d);
    if !gateway(d) {
      Forget(cache, OtpKey(channel, identifier), CooldownKey(channel, identifier));
      return Err(500, "Failed to send OTP"), sent;
    }
    reply := Ok(200, OTP_SENT_MESSAGE);
  }

  /** Lines 41-47: store the hash, reset the attempt counter, start the cooldown. */
  method IssueOtp(cache: Cache, channel: Channel, identifier: string, hashed: string)
    requires cache.Valid()
    modifies cache
    ensures cache.Valid() && cache.now == old(cache.now)
    ensures cache.entries == IssueChallenge(old(cache.entries), cache.now, channel, identifier, hashed)
  {
    cache.Set(OtpKey(channel, identifier), hashed, OTP_TTL);
    cache.Del(AttemptsKey(channel, identifier));
    cache.Set(CooldownKey(channel, identifier), "1", OTP_RESEND_COOLDOWN);
  }

  /** Two `client.del` calls in a row. */
  method Forget(cache: Cache, a: string, b: string)
    requires cache.Valid()
    modifies cache
    ensures cache.Valid() && cache.now == old(cache.now)
    ensures cache.entries == old(cache.entries) - {a, b}
  {
    cache.Del(a);
    cache.Del(b);
    assert cache.entries == old(cache.entries) - {a, b};
  }

  // ---------------------------------------------------------------------------------------------
  // verifyOtpHandler

  datatype VerifyBody = VerifyBody(phone: Option<string>, email: Option<string>, via: Option<string>, otp: Option<string>)

  /** `String(phone ?? email).trim()`: the verify side trims, the request side does not. */
  function TrimmedIdentifier(phone: Option<string>, email: Option<string>): string
    requires HasIdentifier(phone, email)
  {
    Trim(RawIdentifier(phone, email))
  }

  /** A JavaScript number as `Number(...)` yields it from what the counter key can hold. */
  datatype JsNum = Finite(n: nat) | NaN

  /** `Number(s)` for the strings the counter key holds: decimal digits, or "" (which is 0); any
      other string is NaN. */
  function ToNumber(s: string): JsNum {
    if s == "" then Finite(0) else if AllDigits(s) then Finite(ParseDecimal(s)) else NaN
  }

  /** `Number(value ?? 0)`: an absent counter counts as 0. */
  function AttemptCount(v: Option<string>): JsNum {
    if v.Some? then ToNumber(v.value) else Finite(0)
  }

  function Plus1(x: JsNum): JsNum {
    if x.Finite? then Finite(x.n + 1) else NaN
  }

  /** `String(x)`. */
  function NumString(x: JsNum): string {
    if x.Finite? then DecimalString(x.n) else "NaN"
  }

  /** `x > max`; NaN compares false. */
  predicate Exceeds(x: JsNum, max: nat) {
    x.Finite? && x.n > max
  }

  /** Reading back a counter the handler wrote gives the number it wrote. */
  lemma CounterRoundTrip(n: nat)
    ensures ToNumber(NumString(Finite(n))) == Finite(n)
  {
    ParseDecimalString(n);
  }

  datatype Verdict = NotRequested | TooManyAttempts | InvalidOtp | Matched

  datatype Check = Check(verdict: Verdict, store: Store)

  /** Lines 98-145 for one (channel, identifier) pair: no live hash; else count the attempt and
      re-arm the counter's TTL; past the cap purge the hash and the counter (not the cooldown);
      else compare; on a match purge all three keys. */
  function VerifyCore(m: Store, now: int, ch: Channel, id: string, otp: string): Check {
    var stored := Lookup(m, OtpKey(ch, id));
    if !Truthy(stored) then Check(NotRequested, m)
    else
      var attempts := Plus1(AttemptCount(Lookup(m, AttemptsKey(ch, id))));
      var counted := m[AttemptsKey(ch, id) := Entry(NumString(attempts), now + OTP_TTL)];
      if Exceeds(attempts, OTP_MAX_ATTEMPTS) then
        Check(TooManyAttempts, counted - {OtpKey(ch, id), AttemptsKey(ch, id)})
      else if !OtpUtils.VerifyOtp(otp, stored.value) then
        Check(InvalidOtp, counted)
      else
        Check(Matched, counted - {OtpKey(ch, id), AttemptsKey(ch, id), CooldownKey(ch, id)})
  }

  /** A comparison with the stored hash took place. */
  predicate Compared(v: Verdict) {
    v == InvalidOtp || v == Matched
  }

  /** The user lookup of line 148-149: by phone when a phone was sent, else by email. */
  function OtpUserFilter(phone: Option<string>, identifier: string): User -> bool {
    if Truthy(phone) then (u: User) => u.phone == Some(identifier)
    else (u: User) => u.email == Val(identifier)
  }

  /** The document of lines 152-155: the identifier as phone if a phone was sent and as email if
      an email was sent (both, when both were sent). */
  function OtpNewUser(phone: Option<string>, email: Option<string>, identifier: string): NewUser {
    NoFields.(phone := if Truthy(phone) then Some(identifier) else None,
              email := if Truthy(email) then Val(identifier) else Missing)
  }

  datatype Resolution = Resolution(user: Option<User>, users: seq<User>, nextId: UserId)

  /** Lines 146-160: find, else create; any database failure (`dbUp` false, or a duplicate key on
      create) leaves no user. */
  function ResolveOtpUser(users: seq<User>, nextId: UserId, phone: Option<string>, email: Option<string>,
                          identifier: string, dbUp: bool): Resolution
  {
    if !dbUp then Resolution(None, users, nextId)
    else match FindOne(users, OtpUserFilter(phone, identifier))
      case Some(u) => Resolution(Some(u), users, nextId)
      case None =>
        var u := Materialize(nextId, OtpNewUser(phone, email, identifier), UNUSED_SALT);
        if Fits(users, u) then Resolution(Some(u), users + [u], nextId + 1)
        else Resolution(None, users, nextId)
  }

  datatype UserSummary =
    | Profile(id: UserId, name: Option<string>, email: Slot, phone: Option<string>)
    | IdentifierOnly(identifier: string)

  datatype Session = Session(token: Token, user: UserSummary)

  /** Lines 162-170: a token with `{id}` for a resolved user, `{identifier}` otherwise. */
  function OtpSession(user: Option<User>, identifier: string, now: int): Session {
    match user
    case Some(u) => Session(Sign(IdClaims(u.id), now), Profile(u.id, u.name, u.email, u.phone))
    case None => Session(Sign(Claims(None, None, Missing, Some(identifier)), now), IdentifierOnly(identifier))
  }

  datatype VerifyOutcome = VerifyOutcome(reply: Reply<Session>, store: Store, users: seq<User>, nextId: UserId)

  /** What `verifyOtpHandler` answers and leaves in the cache and the user store. */
  function VerifyOtpSpec(m: Store, now: int, users: seq<User>, nextId: UserId, body: VerifyBody, dbUp: bool): VerifyOutcome {
    if !Truthy(body.otp) || !HasIdentifier(body.phone, body.email) then
      VerifyOutcome(Err(400, "missing fields"), m, users, nextId)
    else
      var id := TrimmedIdentifier(body.phone, body.email);
      var check := VerifyCore(m, now, ChannelOf(body.via), id, body.otp.value);
      match check.verdict
      case NotRequested => VerifyOutcome(Err(400, "OTP expired or not requested"), check.store, users, nextId)
      case TooManyAttempts => VerifyOutcome(Err(429, "Too many attempts"), check.store, users, nextId)
      case InvalidOtp => VerifyOutcome(Err(401, "Invalid OTP"), check.store, users, nextId)
      case Matched =>
        var r := ResolveOtpUser(users, nextId, body.phone, body.email, id, dbUp);
        VerifyOutcome(Ok(200, OtpSession(r.user, id, now)), check.store, r.users, r.nextId)
  }

  /** `verifyOtpHandler`. `dbUp` says whether the user store answers. */
  method VerifyOtpHandler(cache: Cache, store: UserStore, body: VerifyBody, dbUp: bool)
    returns (reply: Reply<Session>)
    requires cache.Valid() && store.Valid()
    modifies cache, store
    ensures cache.Valid() && cache.now == old(cache.now) && store.Valid()
    ensures VerifyOutcome(reply, cache.entries, store.users, store.nextId)
         == VerifyOtpSpec(old(cache.entries), cache.now, old(store.users), old(store.nextId), body, dbUp)
  {
    if !Truthy(body.otp) || !HasIdentifier(body.phone, body.email) {
      return Err(400, "missing fields");
    }
    var identifier := TrimmedIdentifier(body.phone, body.email);
    var verdict := CheckOtp(cache, ChannelOf(body.via), identifier, body.otp.value);
    match verdict
    case NotRequested =>
      reply := Err(400, "OTP expired or not requested");
    case TooManyAttempts =>
      reply := Err(429, "Too many attempts");
    case InvalidOtp =>
      reply := Err(401, "Invalid OTP");
    case Matched =>
      var user := FindOrCreateOtpUser(store, body.phone, body.email, identifier, dbUp);
      reply := Ok(200, OtpSession(user, identifier, cache.now));
  }

  /** Lines 98-145 on the cache: read the hash, count the attempt, enforce the cap, compare, and
      purge the challenge on a match. */
  method CheckOtp(cache: Cache, channel: Channel, identifier: string, otp: string) returns (verdict: Verdict)
    requires cache.Valid()
    modifies cache
    ensures cache.Valid() && cache.now == old(cache.now)
    ensures Check(verdict, cache.entries) == VerifyCore(old(cache.entries), cache.now, channel, identifier, otp)
  {
    var storedHashed := cache.Get(OtpKey(channel, identifier));
    if !Truthy(storedHashed) {
      return NotRequested;
    }

    var attempts := Plus1(AttemptCount(cache.Get(AttemptsKey(channel, identifier))));
    cache.Set(AttemptsKey(channel, identifier), NumString(attempts), OTP_TTL);

    if Exceeds(attempts, OTP_MAX_ATTEMPTS) {
      Forget(cache, OtpKey(channel, identifier), AttemptsKey(channel, identifier));
      return TooManyAttempts;
    }

    if !OtpUtils.VerifyOtp(otp, storedHashed.value) {
      return InvalidOtp;
    }
    Forget(cache, OtpKey(channel, identifier), AttemptsKey(channel, identifier));
    cache.Del(CooldownKey(channel, identifier));
    assert cache.entries == old(cache.entries)[AttemptsKey(channel, identifier) := Entry(NumString(attempts), cache.now + OTP_TTL)]
      - {OtpKey(channel, identifier), AttemptsKey(channel, identifier), CooldownKey(channel, identifier)};
    verdict := Matched;
  }

  /** Lines 146-160 on the store: look the user up, create one when none is found. */
  method FindOrCreateOtpUser(store: UserStore, phone: Option<string>, email: Option<string>,
                             identifier: string, dbUp: bool) returns (user: Option<User>)
    requires store.Valid()
    modifies store
    ensures store.Valid()
    ensures Resolution(user, store.users, store.nextId)
         == ResolveOtpUser(old(store.users), old(store.nextId), phone, email, identifier, dbUp)
  {
    user := None;
    if dbUp {
      user := FindOne(store.users, OtpUserFilter(phone, identifier));
      if user.None? {
        var created := store.Create(OtpNewUser(phone, email, identifier), UNUSED_SALT);
        if created.Success? {
          user := Some(created.value);
        }
      }
    }
  }
}
