/** The passcode utilities of src/utils/otp.js: numeric passcode generation and the bcrypt
    hash/compare pair the OTP controller stores and checks. */
module OtpUtils {
  import opened Wrappers
  import opened Text
  import Bcrypt

  /** `OTP_LENGTH` when the environment does not set it. */
  const OTP_LENGTH: nat := 6

  /** `crypto.randomInt(min, max)` refuses a range `max - min` of 2^48 or more. */
  const RANDOM_INT_RANGE: nat := 0x1_0000_0000_0000

  /** A passcode as `generateNumericOtp(length)` spells it: `length` decimal digits, no leading zero. */
  predicate IsNumericOtp(code: string, length: nat) {
    |code| == length && AllDigits(code) && length >= 1 && code[0] != '0'
  }

  /** The lengths for which `crypto.randomInt(10^(n-1), 10^n)` does not throw: the bounds must be
      integers (so n >= 1) and the range below 2^48 (so n <= 14). */
  predicate GenerableLength(length: int) {
    1 <= length && Pow10(length) - Pow10(length - 1) < RANDOM_INT_RANGE
  }

  lemma GenerableLengths()
    ensures GenerableLength(OTP_LENGTH)
    ensures GenerableLength(14) && !GenerableLength(15) && !GenerableLength(0)
  {
  }

  /** `generateNumericOtp(length)`: draws an integer in [10^(length-1), 10^length - 1] (both ends
      reachable, since `randomInt`'s upper bound `max + 1` is exclusive) and returns its decimal
      spelling; a length `randomInt` refuses is an error. The draw is a nondeterministic choice. */
  method GenerateNumericOtp(length: int) returns (r: Result<string, string>)
    ensures r.Success? <==> GenerableLength(length)
    ensures r.Success? ==> IsNumericOtp(r.value, length)
    ensures r.Success? ==> Pow10(length - 1) <= ParseDecimal(r.value) <= Pow10(length) - 1
    ensures r.Success? ==> r.value == DecimalString(ParseDecimal(r.value))
  {
    if !GenerableLength(length) {
      return Failure("RangeError");
    }
    var min := Pow10(length - 1);
    var max := Pow10(length) - 1;
    var n: nat :| min <= n < max + 1;
    DecimalStringLength(n, length);
    ParseDecimalString(n);
    r := Success(DecimalString(n));
  }

  /** `hashOtp(otp)`: bcrypt with a fresh salt of cost 10 (the salt is a parameter here). */
  function HashOtp(otp: string, salt: Bcrypt.Salt): (hashed: string)
    ensures VerifyOtp(otp, hashed)
  {
    Bcrypt.CompareOwnHash(otp, salt);
    Bcrypt.Hash(otp, salt)
  }

  /** `verifyOtp(otp, hashed)`: a pure comparison; it reads no stored state and changes none. */
  predicate VerifyOtp(otp: string, hashed: string) {
    Bcrypt.Compare(otp, hashed)
  }

  /** Round trip: `verifyOtp(c, hashOtp(c))` holds, and no other passcode verifies against it. */
  lemma HashVerifyRoundTrip(otp: string, other: string, salt: Bcrypt.Salt)
    ensures VerifyOtp(otp, HashOtp(otp, salt))
    ensures VerifyOtp(other, HashOtp(otp, salt)) <==> other == otp
  {
    Bcrypt.CompareOnlyOwnHash(other, otp, salt);
  }
}
