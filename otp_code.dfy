/**
 * The one-time code generator: one random unsigned 32-bit word r becomes
 * the number (r mod 900000) + 100000, written in decimal.
 */
module OtpCode {

  /** The value of one `Uint32Array` element filled by the secure random source. */
  newtype Word32 = r: int | 0 <= r < 0x1_0000_0000

  const CodeSpan := 900000
  const CodeBase := 100000

  /** The numeric value of the code drawn from the random word r. */
  function OtpValue(r: Word32): (v: nat)
    ensures 100000 <= v <= 999999
  {
    (r as int) % CodeSpan + CodeBase
  }

  predicate IsDigit(c: char) {
    '0' <= c <= '9'
  }

  predicate AllDigits(s: string) {
    forall i :: 0 <= i < |s| ==> IsDigit(s[i])
  }

  function DigitChar(d: nat): (c: char)
    requires d < 10
    ensures IsDigit(c)
  {
    ('0' as int + d) as char
  }

  function DigitValue(c: char): (d: nat)
    requires IsDigit(c)
    ensures d < 10 && DigitChar(d) == c
  {
    c as int - '0' as int
  }

  /** `n.toString()` for a non-negative integer: decimal, no leading zero. */
  function ToDecimal(n: nat): (s: string)
    ensures |s| > 0 && AllDigits(s)
    ensures n > 0 ==> s[0] != '0'
    decreases n
  {
    if n < 10 then [DigitChar(n)] else ToDecimal(n / 10) + [DigitChar(n % 10)]
  }

  /** The number a string of decimal digits denotes. */
  function ParseDecimal(s: string): nat
    requires AllDigits(s)
  {
    if s == [] then 0 else ParseDecimal(s[..|s| - 1]) * 10 + DigitValue(s[|s| - 1])
  }

  function Pow10(k: nat): (p: nat)
    ensures p >= 1
  {
    if k == 0 then 1 else 10 * Pow10(k - 1)
  }

  /** A number with k digits is written with exactly k characters. */
  lemma {:induction false} ToDecimalLength(n: nat, k: nat)
    requires k >= 1 && Pow10(k - 1) <= n < Pow10(k)
    ensures |ToDecimal(n)| == k
  {
    if k > 1 {
      ToDecimalLength(n / 10, k - 1);
    }
  }

  lemma SixDigitBounds()
    ensures Pow10(5) == 100000 && Pow10(6) == 1000000
  {
    assert Pow10(1) == 10;
    assert Pow10(2) == 100;
    assert Pow10(3) == 1000;
    assert Pow10(4) == 10000;
  }

  /** Reading the decimal form back gives the number. */
  lemma {:induction false} ParseToDecimal(n: nat)
    ensures ParseDecimal(ToDecimal(n)) == n
    decreases n
  {
    var s := ToDecimal(n);
    if n >= 10 {
      ParseToDecimal(n / 10);
      assert s[..|s| - 1] == ToDecimal(n / 10);
    }
  }

  /** `generateOTP()`: the decimal form of OtpValue(r). */
  function GenerateOtp(r: Word32): (code: string)
    ensures |code| == 6 && AllDigits(code) && code[0] != '0'
    ensures ParseDecimal(code) == OtpValue(r)
  {
    var v := OtpValue(r);
    SixDigitBounds();
    ToDecimalLength(v, 6);
    ParseToDecimal(v);
    ToDecimal(v)
  }

  /** Every value of the range is the code of some random word: the map is onto 100000..999999. */
  lemma GenerateOnto(v: nat)
    requires 100000 <= v <= 999999
    ensures exists r: Word32 :: OtpValue(r) == v
  {
    var r := (v - CodeBase) as Word32;
    assert OtpValue(r) == v;
  }

  /** Two words give the same code exactly when they agree modulo 900000. */
  lemma {:induction false} GenerateOtpCollision(r1: Word32, r2: Word32)
    ensures GenerateOtp(r1) == GenerateOtp(r2) <==> (r1 as int) % CodeSpan == (r2 as int) % CodeSpan
  {
    if GenerateOtp(r1) == GenerateOtp(r2) {
      assert ParseDecimal(GenerateOtp(r1)) == ParseDecimal(GenerateOtp(r2));
    }
  }

  /** A six-character code containing a non-digit is never a generated code. */
  lemma NonDigitNeverGenerated(code: string, r: Word32)
    requires !AllDigits(code)
    ensures GenerateOtp(r) != code
  {
  }
}
