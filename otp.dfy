/** One-time codes: generation, decimal rendering and SHA-256 hashing. */
module Otp {

  /** The bounds handed to `crypto.randomInt`; the upper bound is exclusive. */
  const OtpMin: int := 100000
  const OtpMaxExclusive: int := 999999

  /** A digit character. */
  function Digit(d: nat): (c: char)
    requires d < 10
    ensures '0' <= c <= '9'
  {
    ('0' as int + d) as char
  }

  predicate AllDigits(s: string) {
    forall i :: 0 <= i < |s| ==> '0' <= s[i] <= '9'
  }

  /** `Number.prototype.toString()` on a natural number. */
  function Decimal(n: nat): (s: string)
    ensures |s| >= 1 && AllDigits(s)
    decreases n
  {
    if n < 10 then [Digit(n)] else Decimal(n / 10) + [Digit(n % 10)]
  }

  /** Reads a string of digits back as a number. */
  function ValueOf(s: string): nat
    requires AllDigits(s)
    decreases |s|
  {
    if s == [] then 0 else ValueOf(s[..|s| - 1]) * 10 + (s[|s| - 1] as int - '0' as int)
  }

  function Pow10(k: nat): (p: nat)
    ensures p >= 1
  {
    if k == 0 then 1 else 10 * Pow10(k - 1)
  }

  /** Reading back a rendered number gives the number. */
  lemma {:induction false} ValueOfDecimal(n: nat)
    ensures ValueOf(Decimal(n)) == n
    decreases n
  {
    var s := Decimal(n);
    if n >= 10 {
      assert s[..|s| - 1] == Decimal(n / 10);
      ValueOfDecimal(n / 10);
    }
  }

  /** A number in [10^k, 10^(k+1)) has k + 1 decimal digits. */
  lemma {:induction false} DecimalLength(n: nat, k: nat)
    requires Pow10(k) <= n < Pow10(k + 1)
    ensures |Decimal(n)| == k + 1
    decreases k
  {
    if k > 0 {
      assert Pow10(k) == 10 * Pow10(k - 1);
      assert Pow10(k + 1) == 10 * Pow10(k);
      DecimalLength(n / 10, k - 1);
    }
  }

  /** Distinct numbers render as distinct strings. */
  lemma DecimalInjective(m: nat, n: nat)
    requires m != n
    ensures Decimal(m) != Decimal(n)
  {
    ValueOfDecimal(m);
    ValueOfDecimal(n);
  }

  /** `generateOTP`: the decimal string of the random integer. */
  function GenerateOtp(randomInt: int): (otp: string)
    requires OtpMin <= randomInt < OtpMaxExclusive
    ensures |otp| == 6 && AllDigits(otp)
    ensures ValueOf(otp) == randomInt
  {
    assert Pow10(5) == 100000 && Pow10(6) == 1000000;
    DecimalLength(randomInt, 5);
    ValueOfDecimal(randomInt);
    Decimal(randomInt)
  }

  /** Two different random integers give two different codes. */
  lemma GenerateOtpInjective(m: int, n: int)
    requires OtpMin <= m < OtpMaxExclusive && OtpMin <= n < OtpMaxExclusive
    ensures GenerateOtp(m) == GenerateOtp(n) <==> m == n
  {
    if m != n { DecimalInjective(m, n); }
  }

  /** A SHA-256 hex digest, kept symbolic: equal digests have equal inputs. */
  datatype OtpDigest = Sha256Hex(preimage: string)

  /** `hashOTP`. */
  function HashOtp(otp: string): (d: OtpDigest)
    ensures d.preimage == otp
  {
    Sha256Hex(otp)
  }

  /** The digest is modelled as collision-free. */
  lemma HashOtpInjective(a: string, b: string)
    ensures HashOtp(a) == HashOtp(b) <==> a == b
  {
  }

  /** `verifyHashedOTP`: a code matches exactly the digest of itself. */
  predicate VerifyHashedOtp(otp: string, otpHash: OtpDigest): (ok: bool)
    ensures ok <==> otpHash.preimage == otp
  {
    HashOtp(otp) == otpHash
  }

  /** A code always matches its own digest. */
  lemma VerifyOwnHash(otp: string)
    ensures VerifyHashedOtp(otp, HashOtp(otp))
  {
  }
}
