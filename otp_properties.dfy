/** Properties of the passcode challenge in src/controllers/authController.js that span one or
    several calls: what a request and a verify leave in the cache, the cap on comparisons per
    issued code, the order in which the cap fires, and the identity step after a match. */
module OtpProperties {
  import opened Wrappers
  import opened Text
  import opened Http
  import opened TtlCache
  import opened Users
  import opened Jwt
  import opened OtpController
  import Bcrypt
  import OtpUtils

  /** `a` and `b` agree on every key outside `keys`. */
  ghost predicate AgreeOutside(a: Store, b: Store, keys: set<string>) {
    forall k :: k !in keys ==> (k in a <==> k in b) && (k in a ==> a[k] == b[k])
  }

  function ChallengeKeys(ch: Channel, id: string): set<string> {
    {OtpKey(ch, id), AttemptsKey(ch, id), CooldownKey(ch, id)}
  }

  // ---------------------------------------------------------------------------------------------
  // requestOtp

  /** Without a usable phone or email the request is refused; nothing is stored or sent. */
  lemma RequestWithoutIdentifier(m: Store, now: int, body: OtpRequestBody, code: string, salt: Bcrypt.Salt,
                                 gateway: Delivery -> bool)
    requires !HasIdentifier(body.phone, body.email)
    ensures RequestOtpSpec(m, now, body, code, salt, gateway)
         == RequestOutcome(Err(400, "phone or email required"), m, None)
  {
  }

  /** While the cooldown marker is live the request is refused; nothing is stored or sent. */
  lemma RequestDuringCooldown(m: Store, now: int, body: OtpRequestBody, code: string, salt: Bcrypt.Salt,
                              gateway: Delivery -> bool)
    requires HasIdentifier(body.phone, body.email)
    requires Truthy(Lookup(m, CooldownKey(ChannelOf(body.via), RawIdentifier(body.phone, body.email))))
    ensures RequestOtpSpec(m, now, body, code, salt, gateway)
         == RequestOutcome(Err(429, "Please wait before resending OTP"), m, None)
  {
  }

  /** Past the gates, the request sends `code` once, to the phone for sms and to the email for
      email. If the delivery succeeds the answer is the fixed message (the same whatever accounts
      exist: no user store is consulted), the hash under the passcode key accepts exactly `code`
      (any earlier code for the pair is overwritten, not kept beside it) and lives for the passcode
      TTL, the counter is gone and the cooldown marker lives for the cooldown. If it fails the
      answer is 500 and none of the three keys is left. No other key changes either way. */
  lemma {:induction false} RequestIssuesChallenge(m: Store, now: int, body: OtpRequestBody, code: string,
                                                  salt: Bcrypt.Salt, gateway: Delivery -> bool)
    requires HasIdentifier(body.phone, body.email)
    requires !Truthy(Lookup(m, CooldownKey(ChannelOf(body.via), RawIdentifier(body.phone, body.email))))
    ensures var ch, id := ChannelOf(body.via), RawIdentifier(body.phone, body.email);
      var o := RequestOtpSpec(m, now, body, code, salt, gateway);
      var d := Delivery(ch, if ch == Sms then body.phone else body.email, code);
      o.sent == Some(d)
      && AgreeOutside(m, o.store, ChallengeKeys(ch, id))
      && AttemptsKey(ch, id) !in o.store
      && (gateway(d) ==>
            o.reply == Ok(200, OTP_SENT_MESSAGE)
            && OtpKey(ch, id) in o.store
            && o.store[OtpKey(ch, id)].expiresAt == now + OTP_TTL
            && (forall c :: OtpUtils.VerifyOtp(c, o.store[OtpKey(ch, id)].value) <==> c == code)
            && CooldownKey(ch, id) in o.store
            && o.store[CooldownKey(ch, id)] == Entry("1", now + OTP_RESEND_COOLDOWN))
      && (!gateway(d) ==>
            o.reply == Err(500, "Failed to send OTP")
            && OtpKey(ch, id) !in o.store && CooldownKey(ch, id) !in o.store)
  {
    var ch, id := ChannelOf(body.via), RawIdentifier(body.phone, body.email);
    ChallengeKeysDistinct(ch, id);
    var h := OtpUtils.HashOtp(code, salt);
    forall c
      ensures OtpUtils.VerifyOtp(c, h) <==> c == code
    {
      OtpUtils.HashVerifyRoundTrip(code, c, salt);
    }
  }

  /** Phone wins over channel: with both a phone and an email and `via` "email", the challenge is
      kept under the phone while the code goes to the email address. */
  lemma PhoneWinsOverChannel(m: Store, now: int, phone: string, email: string, code: string,
                             salt: Bcrypt.Salt, gateway: Delivery -> bool)
    requires phone != ""
    requires !Truthy(Lookup(m, CooldownKey(Email, phone)))
    ensures var o := RequestOtpSpec(m, now, OtpRequestBody(Some(phone), Some(email), Some("email")), code, salt, gateway);
      o.sent == Some(Delivery(Email, Some(email), code))
      && (gateway(Delivery(Email, Some(email), code)) ==> OtpKey(Email, phone) in o.store)
  {
  }

  // ---------------------------------------------------------------------------------------------
  // verifyOtpHandler

  /** A missing passcode or identifier is refused before the cache is read. */
  lemma VerifyMissingFields(m: Store, now: int, users: seq<User>, nextId: UserId, body: VerifyBody, dbUp: bool)
    requires !Truthy(body.otp) || !HasIdentifier(body.phone, body.email)
    ensures VerifyOtpSpec(m, now, users, nextId, body, dbUp) == VerifyOutcome(Err(400, "missing fields"), m, users, nextId)
  {
  }

  /** With no live hash for the trimmed identifier the answer is 400 and neither the cache nor the
      user store changes. */
  lemma VerifyNotRequested(m: Store, now: int, users: seq<User>, nextId: UserId, body: VerifyBody, dbUp: bool)
    requires Truthy(body.otp) && HasIdentifier(body.phone, body.email)
    requires OtpKey(ChannelOf(body.via), TrimmedIdentifier(body.phone, body.email)) !in m
    ensures VerifyOtpSpec(m, now, users, nextId, body, dbUp)
         == VerifyOutcome(Err(400, "OTP expired or not requested"), m, users, nextId)
  {
  }

  /** One verify against a live hash: the counter becomes its previous value plus one (absent
      counts as zero) and is re-armed for the passcode TTL; past the cap the hash and the counter
      are purged without a comparison and the cooldown marker is left as it was; a mismatch keeps
      the hash; a match purges all three keys. No other key changes. */
  lemma {:induction false} VerifyCoreEffects(m: Store, now: int, ch: Channel, id: string, otp: string)
    requires Truthy(Lookup(m, OtpKey(ch, id)))
    ensures var c := VerifyCore(m, now, ch, id, otp);
      var a := Plus1(AttemptCount(Lookup(m, AttemptsKey(ch, id))));
      var hashed := m[OtpKey(ch, id)].value;
      AgreeOutside(m, c.store, ChallengeKeys(ch, id))
      && (c.verdict == TooManyAttempts <==> Exceeds(a, OTP_MAX_ATTEMPTS))
      && (c.verdict == TooManyAttempts ==>
            OtpKey(ch, id) !in c.store && AttemptsKey(ch, id) !in c.store
            && (CooldownKey(ch, id) in c.store <==> CooldownKey(ch, id) in m)
            && (CooldownKey(ch, id) in m ==> c.store[CooldownKey(ch, id)] == m[CooldownKey(ch, id)]))
      && (c.verdict == InvalidOtp ==>
            !OtpUtils.VerifyOtp(otp, hashed)
            && OtpKey(ch, id) in c.store && c.store[OtpKey(ch, id)] == m[OtpKey(ch, id)]
            && AttemptsKey(ch, id) in c.store
            && c.store[AttemptsKey(ch, id)] == Entry(NumString(a), now + OTP_TTL))
      && (c.verdict == Matched ==>
            OtpUtils.VerifyOtp(otp, hashed)
            && OtpKey(ch, id) !in c.store && AttemptsKey(ch, id) !in c.store && CooldownKey(ch, id) !in c.store)
      && c.verdict != NotRequested
  {
    ChallengeKeysDistinct(ch, id);
  }

  // ---------------------------------------------------------------------------------------------
  // At most OTP_MAX_ATTEMPTS comparisons per issued code

  /** What happens to a challenge between two requests: a verify call, or time passing. */
  datatype Step = Attempt(otp: string) | Wait(dt: nat)

  /** How many of `steps` compare a code with the stored hash. */
  function Comparisons(m: Store, now: int, ch: Channel, id: string, steps: seq<Step>): nat
    decreases |steps|
  {
    if steps == [] then 0
    else match steps[0]
      case Wait(dt) => Comparisons(Expire(m, now + dt), now + dt, ch, id, steps[1..])
      case Attempt(otp) =>
        var c := VerifyCore(m, now, ch, id, otp);
        (if Compared(c.verdict) then 1 else 0) + Comparisons(c.store, now, ch, id, steps[1..])
  }

  /** `done` comparisons have taken place against the live challenge of the pair, and the counter
      says so: it is absent only before the first one, it outlives the hash, and the hash itself
      was written no earlier than one TTL ago. */
  ghost predicate ChallengeInv(m: Store, now: int, ch: Channel, id: string, done: nat) {
    done <= OTP_MAX_ATTEMPTS
    && (OtpKey(ch, id) in m ==>
          m[OtpKey(ch, id)].expiresAt <= now + OTP_TTL
          && AttemptCount(Lookup(m, AttemptsKey(ch, id))) == Finite(done)
          && (AttemptsKey(ch, id) in m ==> m[AttemptsKey(ch, id)].expiresAt >= m[OtpKey(ch, id)].expiresAt))
  }

  /** A request that went through leaves the invariant with no comparison made. */
  lemma IssuedChallengeInv(m: Store, now: int, body: OtpRequestBody, code: string, salt: Bcrypt.Salt,
                           gateway: Delivery -> bool)
    requires HasIdentifier(body.phone, body.email)
    requires !Truthy(Lookup(m, CooldownKey(ChannelOf(body.via), RawIdentifier(body.phone, body.email))))
    ensures ChallengeInv(RequestOtpSpec(m, now, body, code, salt, gateway).store, now,
                         ChannelOf(body.via), RawIdentifier(body.phone, body.email), 0)
  {
    RequestIssuesChallenge(m, now, body, code, salt, gateway);
  }

  lemma {:induction false} AttemptKeepsInv(m: Store, now: int, ch: Channel, id: string, otp: string, done: nat)
    requires ChallengeInv(m, now, ch, id, done)
    ensures var c := VerifyCore(m, now, ch, id, otp);
      ChallengeInv(c.store, now, ch, id, if Compared(c.verdict) then done + 1 else done)
  {
    var c := VerifyCore(m, now, ch, id, otp);
    if Truthy(Lookup(m, OtpKey(ch, id))) {
      VerifyCoreEffects(m, now, ch, id, otp);
      CounterRoundTrip(done + 1);
    }
  }

  lemma {:induction false} WaitKeepsInv(m: Store, now: int, dt: nat, ch: Channel, id: string, done: nat)
    requires ChallengeInv(m, now, ch, id, done)
    ensures ChallengeInv(Expire(m, now + dt), now + dt, ch, id, done)
  {
    var e := Expire(m, now + dt);
    if OtpKey(ch, id) in e {
      assert OtpKey(ch, id) in m;
      if AttemptsKey(ch, id) in m {
        assert AttemptsKey(ch, id) in e;
      }
    }
  }

  /** The cap: from any state where `done` comparisons were made, the remaining steps make at most
      `OTP_MAX_ATTEMPTS - done` more, however the calls and the waits are interleaved. */
  lemma {:induction false} ComparisonBound(m: Store, now: int, ch: Channel, id: string, steps: seq<Step>, done: nat)
    requires ChallengeInv(m, now, ch, id, done)
    ensures done + Comparisons(m, now, ch, id, steps) <= OTP_MAX_ATTEMPTS
    decreases |steps|
  {
    if steps != [] {
      match steps[0]
      case Wait(dt) =>
        WaitKeepsInv(m, now, dt, ch, id, done);
        ComparisonBound(Expire(m, now + dt), now + dt, ch, id, steps[1..], done);
      case Attempt(otp) =>
        var c := VerifyCore(m, now, ch, id, otp);
        AttemptKeepsInv(m, now, ch, id, otp, done);
        ComparisonBound(c.store, now, ch, id, steps[1..], if Compared(c.verdict) then done + 1 else done);
    }
  }

  /** So a code issued by a successful request is compared at most `OTP_MAX_ATTEMPTS` times before
      the next request, whatever is guessed and however long the guesser waits. */
  lemma AtMostMaxComparisons(m: Store, now: int, body: OtpRequestBody, code: string, salt: Bcrypt.Salt,
                             gateway: Delivery -> bool, steps: seq<Step>)
    requires HasIdentifier(body.phone, body.email)
    requires !Truthy(Lookup(m, CooldownKey(ChannelOf(body.via), RawIdentifier(body.phone, body.email))))
    ensures Comparisons(RequestOtpSpec(m, now, body, code, salt, gateway).store, now,
                        ChannelOf(body.via), RawIdentifier(body.phone, body.email), steps) <= OTP_MAX_ATTEMPTS
  {
    IssuedChallengeInv(m, now, body, code, salt, gateway);
    ComparisonBound(RequestOtpSpec(m, now, body, code, salt, gateway).store, now,
                    ChannelOf(body.via), RawIdentifier(body.phone, body.email), steps, 0);
  }

  // ---------------------------------------------------------------------------------------------
  // Exhaustion fires on the call after the cap

  datatype Trace = Trace(verdicts: seq<Verdict>, store: Store)

  /** Verify calls one after another, with no time passing. */
  function RunAttempts(m: Store, now: int, ch: Channel, id: string, codes: seq<string>): Trace
    decreases |codes|
  {
    if codes == [] then Trace([], m)
    else
      var c := VerifyCore(m, now, ch, id, codes[0]);
      var rest := RunAttempts(c.store, now, ch, id, codes[1..]);
      Trace([c.verdict] + rest.verdicts, rest.store)
  }

  /** Wrong codes while under the cap are each answered "Invalid OTP"; they leave the hash and the
      cooldown marker alone and raise the counter by one each. */
  lemma {:induction false} WrongCodesCounted(m: Store, now: int, ch: Channel, id: string, codes: seq<string>, k: nat)
    requires Truthy(Lookup(m, OtpKey(ch, id)))
    requires AttemptCount(Lookup(m, AttemptsKey(ch, id))) == Finite(k) && k + |codes| <= OTP_MAX_ATTEMPTS
    requires forall i :: 0 <= i < |codes| ==> !OtpUtils.VerifyOtp(codes[i], m[OtpKey(ch, id)].value)
    ensures var r := RunAttempts(m, now, ch, id, codes);
      |r.verdicts| == |codes| && (forall i :: 0 <= i < |codes| ==> r.verdicts[i] == InvalidOtp)
      && OtpKey(ch, id) in r.store && r.store[OtpKey(ch, id)] == m[OtpKey(ch, id)]
      && Lookup(r.store, CooldownKey(ch, id)) == Lookup(m, CooldownKey(ch, id))
      && AttemptCount(Lookup(r.store, AttemptsKey(ch, id))) == Finite(k + |codes|)
    decreases |codes|
  {
    if codes != [] {
      var c := VerifyCore(m, now, ch, id, codes[0]);
      VerifyCoreEffects(m, now, ch, id, codes[0]);
      CounterRoundTrip(k + 1);
      ChallengeKeysDistinct(ch, id);
      assert c.verdict == InvalidOtp;
      WrongCodesCounted(c.store, now, ch, id, codes[1..], k + 1);
      var rest := RunAttempts(c.store, now, ch, id, codes[1..]);
      forall i | 0 <= i < |codes|
        ensures RunAttempts(m, now, ch, id, codes).verdicts[i] == InvalidOtp
      {
        if i > 0 {
          assert RunAttempts(m, now, ch, id, codes).verdicts[i] == rest.verdicts[i - 1];
        }
      }
    }
  }

  /** Exhaustion fires late: on a fresh challenge, `OTP_MAX_ATTEMPTS` wrong codes are each
      answered "Invalid OTP", and the next call is answered "Too many attempts" whatever code it
      carries, even the right one. It purges the hash and the counter, and the cooldown marker
      survives it. */
  lemma ExhaustionFiresLate(m: Store, now: int, ch: Channel, id: string, codes: seq<string>)
    requires Truthy(Lookup(m, OtpKey(ch, id))) && AttemptsKey(ch, id) !in m
    requires |codes| == OTP_MAX_ATTEMPTS + 1
    requires forall i :: 0 <= i < OTP_MAX_ATTEMPTS ==> !OtpUtils.VerifyOtp(codes[i], m[OtpKey(ch, id)].value)
    ensures var r := RunAttempts(m, now, ch, id, codes);
      |r.verdicts| == OTP_MAX_ATTEMPTS + 1
      && (forall i :: 0 <= i < OTP_MAX_ATTEMPTS ==> r.verdicts[i] == InvalidOtp)
      && r.verdicts[OTP_MAX_ATTEMPTS] == TooManyAttempts
      && OtpKey(ch, id) !in r.store && AttemptsKey(ch, id) !in r.store
      && Lookup(r.store, CooldownKey(ch, id)) == Lookup(m, CooldownKey(ch, id))
  {
    var first := codes[..OTP_MAX_ATTEMPTS];
    WrongCodesCounted(m, now, ch, id, first, 0);
    var mid := RunAttempts(m, now, ch, id, first);
    VerifyCoreEffects(mid.store, now, ch, id, codes[OTP_MAX_ATTEMPTS]);
    RunAttemptsSplit(m, now, ch, id, first, [codes[OTP_MAX_ATTEMPTS]]);
    assert first + [codes[OTP_MAX_ATTEMPTS]] == codes;
  }

  lemma {:induction false} RunAttemptsSplit(m: Store, now: int, ch: Channel, id: string, a: seq<string>, b: seq<string>)
    ensures var ra := RunAttempts(m, now, ch, id, a);
      var rb := RunAttempts(ra.store, now, ch, id, b);
      RunAttempts(m, now, ch, id, a + b) == Trace(ra.verdicts + rb.verdicts, rb.store)
    decreases |a|
  {
    if a == [] {
      assert a + b == b;
    } else {
      var c := VerifyCore(m, now, ch, id, a[0]);
      assert (a + b)[0] == a[0] && (a + b)[1..] == a[1..] + b;
      RunAttemptsSplit(c.store, now, ch, id, a[1..], b);
      var ra := RunAttempts(c.store, now, ch, id, a[1..]);
      var rb := RunAttempts(ra.store, now, ch, id, b);
      assert [c.verdict] + (ra.verdicts + rb.verdicts) == ([c.verdict] + ra.verdicts) + rb.verdicts;
    }
  }

  // ---------------------------------------------------------------------------------------------
  // The request side keys on the raw identifier, the verify side on the trimmed one

  /** A phone sent with surrounding blanks gets its code, but verifying that very code with the
      very same body finds no challenge: the request stored it under the padded phone, the verify
      looks under the trimmed one. */
  lemma PaddedIdentifierNeverVerifies(m: Store, now: int, phone: string, via: Option<string>, code: string,
                                      salt: Bcrypt.Salt, gateway: Delivery -> bool,
                                      users: seq<User>, nextId: UserId, dbUp: bool)
    requires phone != "" && Trim(phone) != phone && code != ""
    requires !Truthy(Lookup(m, CooldownKey(ChannelOf(via), phone)))
    requires OtpKey(ChannelOf(via), Trim(phone)) !in m
    ensures var o := RequestOtpSpec(m, now, OtpRequestBody(Some(phone), None, via), code, salt, gateway);
      var v := VerifyOtpSpec(o.store, now, users, nextId, VerifyBody(Some(phone), None, via, Some(code)), dbUp);
      (o.reply.Ok? ==> OtpKey(ChannelOf(via), phone) in o.store)
      && v.reply == Err(400, "OTP expired or not requested")
  {
    var ch := ChannelOf(via);
    var body := OtpRequestBody(Some(phone), None, via);
    RequestIssuesChallenge(m, now, body, code, salt, gateway);
    KeyInjective(Code, ch, Trim(phone), Code, ch, phone);
    KeyInjective(Code, ch, Trim(phone), Attempts, ch, phone);
    KeyInjective(Code, ch, Trim(phone), Cooldown, ch, phone);
  }

  // ---------------------------------------------------------------------------------------------
  // The identity step after a match

  /** The user found or created for a matched code is the account of the identifier: it is in the
      store and carries the identifier as its phone (when a phone was sent) or its email. The store
      keeps its unique indexes and at most gains that one new account; no user results only when
      the database is down or the new account would collide with an existing one. */
  lemma {:induction false} ResolveOtpUserSound(users: seq<User>, nextId: UserId, phone: Option<string>,
                                               email: Option<string>, id: string, dbUp: bool)
    requires SparseUnique(users) && HasIdentifier(phone, email) && Trim(id) == id
    ensures var r := ResolveOtpUser(users, nextId, phone, email, id, dbUp);
      SparseUnique(r.users)
      && (r.users == users || (r.user.Some? && r.users == users + [r.user.value] && r.user.value.id == nextId))
      && (r.user.Some? ==>
            r.user.value in r.users
            && (Truthy(phone) ==> r.user.value.phone == Some(id))
            && (!Truthy(phone) ==> r.user.value.email == Val(id)))
      && (r.user.None? ==> !dbUp || !Fits(users, Materialize(nextId, OtpNewUser(phone, email, id), UNUSED_SALT)))
  {
    if dbUp && FindOne(users, OtpUserFilter(phone, id)).None? {
      var u := Materialize(nextId, OtpNewUser(phone, email, id), UNUSED_SALT);
      if Fits(users, u) {
        InsertKeepsUnique(users, u);
      }
    }
  }
}
