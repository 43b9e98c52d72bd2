/** Token and one-time-code shapes (lib/auth/tokens.ts). The random bytes
    and the clock reading are parameters. */
module Tokens {
  import opened Strings

  newtype byte = x: int | 0 <= x < 256

  const TokenExpiryMinutes := 5
  const OtpLength := 6
  const OtpModulus := 1000000
  const SecureTokenBytes := 32

  // ---------------------------------------------------------------------
  // One-time codes
  // ---------------------------------------------------------------------

  /** `readUInt32BE(0)` on four bytes. */
  function ReadUInt32BE(b: seq<byte>): (n: nat)
    requires |b| == 4
    ensures n < 0x1_0000_0000
  {
    ((b[0] as int * 256 + b[1] as int) * 256 + b[2] as int) * 256 + b[3] as int
  }

  /** The four big-endian bytes of a 32-bit value. */
  function WriteUInt32BE(n: nat): (b: seq<byte>)
    requires n < 0x1_0000_0000
    ensures |b| == 4
  {
    [(n / 0x100_0000) as byte, (n / 0x1_0000 % 256) as byte, (n / 256 % 256) as byte, (n % 256) as byte]
  }

  /** Reading the bytes written for a value gives the value back. */
  lemma ReadWriteUInt32(n: nat)
    requires n < 0x1_0000_0000
    ensures ReadUInt32BE(WriteUInt32BE(n)) == n
  {
    ByteGroups(n);
  }

  /** A number split into bytes, most significant first. */
  lemma ByteGroups(n: nat)
    ensures n == n / 256 * 256 + n % 256
    ensures n / 256 == n / 0x1_0000 * 256 + n / 256 % 256
    ensures n / 0x1_0000 == n / 0x100_0000 * 256 + n / 0x1_0000 % 256
  {
    var q := n / 256;
    assert q / 256 == n / 0x1_0000;
    assert q / 0x1_0000 == n / 0x100_0000;
  }

  /** `generateOTP` given the four random bytes: the big-endian value
      modulo one million, in decimal, left-padded with zeros to six places. */
  function GenerateOtp(random: seq<byte>): (code: string)
    requires |random| == 4
    ensures |code| == OtpLength && AllDigits(code)
    ensures DecimalValue(code) == ReadUInt32BE(random) % OtpModulus
  {
    var n := ReadUInt32BE(random) % OtpModulus;
    var digits := NatToDecimal(n);
    DecimalLength(digits);
    var code := PadStartZeros(digits, OtpLength);
    assert AllDigits(code) && DecimalValue(code) == n by {
      if |digits| < OtpLength {
        LeadingZeros(Repeat('0', OtpLength - |digits|), digits);
      }
    }
    code
  }

  function Pow10(k: nat): (p: nat)
    ensures p >= 1
  {
    if k == 0 then 1 else 10 * Pow10(k - 1)
  }

  /** A digit string is below ten to the power of its length, and one with
      a non-zero first digit is at least ten to its length minus one. */
  lemma {:induction false} DecimalBounds(s: string)
    requires AllDigits(s)
    ensures DecimalValue(s) < Pow10(|s|)
    ensures |s| > 0 && s[0] != '0' ==> DecimalValue(s) >= Pow10(|s| - 1)
  {
    if |s| > 0 {
      var init := s[..|s| - 1];
      DecimalBounds(init);
      if |s| > 1 {
        assert init[0] == s[0];
      }
    }
  }

  /** The decimal rendering of a value below a million has at most six
      digits. */
  lemma DecimalLength(digits: string)
    requires |digits| > 0 && AllDigits(digits) && (|digits| > 1 ==> digits[0] != '0')
    requires DecimalValue(digits) < OtpModulus
    ensures |digits| <= OtpLength
  {
    DecimalBounds(digits);
    assert Pow10(OtpLength) == OtpModulus;
    Pow10Monotone(OtpLength, |digits| - 1);
  }

  lemma {:induction false} Pow10Monotone(j: nat, k: nat)
    ensures j <= k ==> Pow10(j) <= Pow10(k)
    decreases k
  {
    if j < k {
      Pow10Monotone(j, k - 1);
    }
  }

  /** Two digit strings of the same length with the same value are equal:
      a decimal code determines its digits. */
  lemma {:induction false} DecimalInjective(s: string, t: string)
    requires AllDigits(s) && AllDigits(t) && |s| == |t|
    requires DecimalValue(s) == DecimalValue(t)
    ensures s == t
  {
    if |s| > 0 {
      var n := |s|;
      assert DigitValue(s[n - 1]) == DecimalValue(s) % 10;
      assert DigitValue(t[n - 1]) == DecimalValue(t) % 10;
      DecimalInjective(s[..n - 1], t[..n - 1]);
      assert s == s[..n - 1] + [s[n - 1]] && t == t[..n - 1] + [t[n - 1]];
    }
  }

  /** Every six-digit code is produced by some random input: the code
      space is all of `000000`..`999999`. */
  lemma OtpCoversEveryCode(code: string)
    requires |code| == OtpLength && AllDigits(code)
    ensures GenerateOtp(WriteUInt32BE(DecimalValue(code) % OtpModulus)) == code
  {
    DecimalBounds(code);
    assert Pow10(OtpLength) == OtpModulus;
    var n := DecimalValue(code) % OtpModulus;
    assert n == DecimalValue(code);
    var random := WriteUInt32BE(n);
    ReadWriteUInt32(n);
    var g := GenerateOtp(random);
    assert DecimalValue(g) == n;
    DecimalInjective(g, code);
  }

  // ---------------------------------------------------------------------
  // Secure tokens
  // ---------------------------------------------------------------------

  const HexDigits := "0123456789abcdef"

  predicate IsLowerHex(c: char) {
    ('0' <= c <= '9') || ('a' <= c <= 'f')
  }

  function HexChar(d: nat): (c: char)
    requires d < 16
    ensures IsLowerHex(c)
  {
    HexDigits[d]
  }

  function HexValue(c: char): (d: nat)
    requires IsLowerHex(c)
    ensures d < 16 && HexChar(d) == c
  {
    if c <= '9' then c as int - '0' as int else c as int - 'a' as int + 10
  }

  /** `buffer.toString('hex')`: two lower-case hex digits per byte, high
      nibble first. */
  function HexEncode(b: seq<byte>): (r: string)
    ensures |r| == 2 * |b|
    ensures forall i :: 0 <= i < |r| ==> IsLowerHex(r[i])
  {
    if |b| == 0 then ""
    else [HexChar(b[0] as int / 16), HexChar(b[0] as int % 16)] + HexEncode(b[1..])
  }

  /** Reads lower-case hex back into bytes. */
  function HexDecode(s: string): (b: seq<byte>)
    requires |s| % 2 == 0
    requires forall i :: 0 <= i < |s| ==> IsLowerHex(s[i])
    ensures |b| == |s| / 2
  {
    if |s| == 0 then []
    else [(HexValue(s[0]) * 16 + HexValue(s[1])) as byte] + HexDecode(s[2..])
  }

  /** Decoding an encoding gives back the bytes. */
  lemma {:induction false} HexRoundTrip(b: seq<byte>)
    ensures HexDecode(HexEncode(b)) == b
  {
    if |b| > 0 {
      var r := HexEncode(b);
      var hi, lo := b[0] as int / 16, b[0] as int % 16;
      assert r == [HexChar(hi), HexChar(lo)] + HexEncode(b[1..]);
      assert r[2..] == HexEncode(b[1..]);
      HexRoundTrip(b[1..]);
      HexCharValue(hi);
      HexCharValue(lo);
      assert HexValue(r[0]) * 16 + HexValue(r[1]) == b[0] as int;
      HexDecodeStep(r, HexEncode(b[1..]), b[0], b[1..]);
      assert b == [b[0]] + b[1..];
    }
  }

  /** Decoding reads the first two digits as one byte, then the rest. */
  lemma HexDecodeStep(s: string, rest: string, first: byte, more: seq<byte>)
    requires |s| >= 2 && |s| % 2 == 0 && forall i :: 0 <= i < |s| ==> IsLowerHex(s[i])
    requires s[2..] == rest && HexDecode(rest) == more
    requires first as int == HexValue(s[0]) * 16 + HexValue(s[1])
    ensures HexDecode(s) == [first] + more
  {
  }

  lemma HexCharValue(d: nat)
    requires d < 16
    ensures HexValue(HexChar(d)) == d
  {
  }

  /** `generateSecureToken` given the 32 random bytes: 64 lower-case hex
      characters from which the bytes can be read back. */
  function GenerateSecureToken(random: seq<byte>): (token: string)
    requires |random| == SecureTokenBytes
    ensures |token| == 64
    ensures forall i :: 0 <= i < |token| ==> IsLowerHex(token[i])
    ensures HexDecode(token) == random
  {
    HexRoundTrip(random);
    HexEncode(random)
  }

  // ---------------------------------------------------------------------
  // Expiry
  // ---------------------------------------------------------------------

  /** `getTokenExpiry` given the current time in milliseconds. */
  function TokenExpiry(nowMs: int): (expiry: int)
    ensures expiry - nowMs == 5 * 60 * 1000
  {
    nowMs + TokenExpiryMinutes * 60 * 1000
  }

  predicate Expired(expiry: int, atMs: int) {
    atMs > expiry
  }

  /** A token issued at `now` is live through exactly five minutes. */
  lemma ExpiryWindow(nowMs: int, atMs: int)
    requires atMs >= nowMs
    ensures !Expired(TokenExpiry(nowMs), atMs) <==> atMs - nowMs <= 300000
  {
  }
}
