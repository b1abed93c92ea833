/**
 * Textual numerals as the controller handles them: hexadecimal digit tokens
 * read by `int(tok, 16)`, lower-case `hex(n)[2:]`, decimal `str(n)` and
 * `str.zfill`.
 */
module HexText {

  /** One byte value, as indexing a Python `bytes` object yields it. */
  type byte = x: int | 0 <= x < 256

  predicate IsHexDigit(c: char) {
    ('0' <= c <= '9') || ('a' <= c <= 'f') || ('A' <= c <= 'F')
  }

  predicate IsDecimalDigit(c: char) {
    '0' <= c <= '9'
  }

  function DigitValue(c: char): (v: nat)
    requires IsHexDigit(c)
    ensures v < 16
    ensures IsDecimalDigit(c) <==> v < 10
  {
    if '0' <= c <= '9' then c as int - '0' as int
    else if 'a' <= c <= 'f' then c as int - 'a' as int + 10
    else c as int - 'A' as int + 10
  }

  /** The lower-case digit `hex` prints for a value below 16. */
  function HexChar(v: nat): (c: char)
    requires v < 16
    ensures IsHexDigit(c) && DigitValue(c) == v
    ensures !('A' <= c <= 'F')
  {
    if v < 10 then (v + '0' as int) as char else (v - 10 + 'a' as int) as char
  }

  function DigitChar(v: nat): (c: char)
    requires v < 10
    ensures IsDecimalDigit(c) && DigitValue(c) == v
  {
    (v + '0' as int) as char
  }

  predicate AllHexDigits(s: string) {
    forall i | 0 <= i < |s| :: IsHexDigit(s[i])
  }

  predicate AllDecimalDigits(s: string) {
    forall i | 0 <= i < |s| :: IsDecimalDigit(s[i])
  }

  /** A token that `int(tok, 16)` accepts: a non-empty run of hex digits. */
  predicate IsHexToken(s: string) {
    |s| > 0 && AllHexDigits(s)
  }

  /** A token that `bytes.fromhex` reads as exactly one byte. */
  predicate IsByteToken(s: string) {
    |s| == 2 && AllHexDigits(s)
  }

  /** Big-endian value of a run of hex digits. */
  function HexValue(s: string): nat
    requires AllHexDigits(s)
    decreases |s|
  {
    if |s| == 0 then 0 else HexValue(s[..|s| - 1]) * 16 + DigitValue(s[|s| - 1])
  }

  /** Big-endian value of a run of decimal digits. */
  function DecimalValue(s: string): nat
    requires AllDecimalDigits(s)
    decreases |s|
  {
    if |s| == 0 then 0 else DecimalValue(s[..|s| - 1]) * 10 + DigitValue(s[|s| - 1])
  }

  /** `hex(n)[2:]`: lower-case, no padding, "0" for zero. */
  function LowerHex(n: nat): (s: string)
    ensures IsHexToken(s) && HexValue(s) == n
    ensures |s| == 1 <==> n < 16
    ensures |s| == 2 <==> 16 <= n < 256
    ensures forall i | 0 <= i < |s| :: !('A' <= s[i] <= 'F')
    decreases n
  {
    if n < 16 then [HexChar(n)]
    else
      var s := LowerHex(n / 16) + [HexChar(n % 16)];
      assert s[..|s| - 1] == LowerHex(n / 16);
      s
  }

  /** `str(n)` for a non-negative integer. */
  function Decimal(n: nat): (s: string)
    ensures |s| > 0 && AllDecimalDigits(s) && DecimalValue(s) == n
    ensures |s| == 1 <==> n < 10
    ensures |s| <= 2 <==> n < 100
    ensures n >= 10 ==> s[0] != '0'
    decreases n
  {
    if n < 10 then [DigitChar(n)]
    else
      var s := Decimal(n / 10) + [DigitChar(n % 10)];
      assert s[..|s| - 1] == Decimal(n / 10);
      s
  }

  function Zeros(k: nat): (z: string)
    ensures |z| == k && forall i | 0 <= i < k :: z[i] == '0'
  {
    seq(k, _ => '0')
  }

  /** `s.zfill(width)`: pads with '0' on the left, after a leading sign if any. */
  function ZFill(s: string, width: nat): (r: string)
    ensures |r| == if |s| >= width then |s| else width
    ensures |s| >= width ==> r == s
    ensures |s| < width && (|s| == 0 || (s[0] != '+' && s[0] != '-')) ==>
              r[width - |s|..] == s && forall i | 0 <= i < width - |s| :: r[i] == '0'
    ensures |s| < width && |s| > 0 && (s[0] == '+' || s[0] == '-') ==>
              r[0] == s[0] && r[1 + width - |s|..] == s[1..] && forall i | 1 <= i <= width - |s| :: r[i] == '0'
  {
    if |s| >= width then s
    else if |s| > 0 && (s[0] == '+' || s[0] == '-') then [s[0]] + Zeros(width - |s|) + s[1..]
    else Zeros(width - |s|) + s
  }

  lemma {:induction false} DecimalDigitsAreHex(s: string)
    requires AllDecimalDigits(s)
    ensures AllHexDigits(s)
  {
    forall i | 0 <= i < |s|
      ensures IsHexDigit(s[i])
    {
      assert IsDecimalDigit(s[i]);
    }
  }

  lemma {:induction false} ZerosValue(k: nat)
    ensures AllHexDigits(Zeros(k)) && HexValue(Zeros(k)) == 0
  {
    if k > 0 {
      assert Zeros(k)[..k - 1] == Zeros(k - 1);
      ZerosValue(k - 1);
    }
  }

  /** Leading zeros do not change the value `int(tok, 16)` reads. */
  lemma {:induction false} LeadingZerosValue(k: nat, s: string)
    requires AllHexDigits(s)
    ensures AllHexDigits(Zeros(k) + s)
    ensures HexValue(Zeros(k) + s) == HexValue(s)
    decreases |s|
  {
    var t := Zeros(k) + s;
    if |s| == 0 {
      assert t == Zeros(k);
      ZerosValue(k);
    } else {
      LeadingZerosValue(k, s[..|s| - 1]);
      assert t[..|t| - 1] == Zeros(k) + s[..|s| - 1];
    }
  }

  /** `zfill` keeps the value of a hex token and makes it at least `width` long. */
  lemma ZFillHexValue(s: string, width: nat)
    requires IsHexToken(s)
    ensures IsHexToken(ZFill(s, width)) && HexValue(ZFill(s, width)) == HexValue(s)
  {
    if |s| < width {
      assert IsHexDigit(s[0]);
      assert ZFill(s, width) == Zeros(width - |s|) + s;
      LeadingZerosValue(width - |s|, s);
    }
  }

  /** Two decimal digits read as hex: the value `bytes.fromhex` gives to `str(n).zfill(2)`. */
  lemma DecimalAsHex(n: nat)
    requires n < 100
    ensures IsByteToken(ZFill(Decimal(n), 2))
    ensures HexValue(ZFill(Decimal(n), 2)) == 16 * (n / 10) + n % 10
  {
    var t := ZFill(Decimal(n), 2);
    if n < 10 {
      PadOneDigit(n);
      assert t == ['0', DigitChar(n)];
    } else {
      var d := Decimal(n);
      assert d == Decimal(n / 10) + [DigitChar(n % 10)];
      assert t == [DigitChar(n / 10), DigitChar(n % 10)];
    }
    TwoDigitValue(t);
  }

  /** `zfill(2)` puts one zero in front of a single digit. */
  lemma PadOneDigit(n: nat)
    requires n < 10
    ensures ZFill(Decimal(n), 2) == ['0', DigitChar(n)]
  {
    assert Decimal(n) == [DigitChar(n)];
    assert Zeros(1) == ['0'];
  }

  /** The value of a two-digit hex token. */
  lemma TwoDigitValue(t: string)
    requires |t| == 2 && IsHexDigit(t[0]) && IsHexDigit(t[1])
    ensures IsByteToken(t) && HexValue(t) == DigitValue(t[0]) * 16 + DigitValue(t[1])
  {
    assert AllHexDigits(t) by {
      forall i | 0 <= i < |t| ensures IsHexDigit(t[i]) { assert i == 0 || i == 1; }
    }
    var h := t[..1];
    assert h == [t[0]] && h[..0] == [];
    assert HexValue(h) == DigitValue(t[0]);
  }
}
