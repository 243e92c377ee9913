/** The number printers of the vendored Unity test framework (unit_tests/unity.c), each against a
    reader of the text it prints. UNITY_UINT is 64 bits wide. */
module UnityPrint {
  import opened Arithmetic

  type UInt = x: int | 0 <= x < 0x1_0000_0000_0000_0000
  type Int32 = x: int | -0x8000_0000 <= x < 0x8000_0000

  function Pow(b: nat, k: nat): nat {
    if k == 0 then 1 else b * Pow(b, k - 1)
  }

  lemma {:induction false} PowPositive(b: nat, k: nat)
    requires b > 0
    ensures Pow(b, k) > 0
  {
    if k > 0 {
      PowPositive(b, k - 1);
    }
  }

  predicate IsDigit(c: char) { '0' <= c <= '9' }

  function DigitOf(c: char): nat
    requires IsDigit(c)
  {
    c as int - '0' as int
  }

  function Digit(d: nat): (c: char)
    requires d < 10
    ensures IsDigit(c) && DigitOf(c) == d
  {
    (d + '0' as int) as char
  }

  predicate AllDigits(s: string) {
    forall i :: 0 <= i < |s| ==> IsDigit(s[i])
  }

  /** Reading a run of decimal digits. */
  function Value(s: string): nat
    requires AllDigits(s)
  {
    if s == "" then 0 else 10 * Value(s[..|s| - 1]) + DigitOf(s[|s| - 1])
  }

  /** The usual decimal form. */
  function Decimal(n: nat): (s: string)
    ensures s != "" && AllDigits(s)
  {
    if n < 10 then [Digit(n)] else Decimal(n / 10) + [Digit(n % 10)]
  }

  predicate NoLeadingZero(s: string) {
    |s| > 1 ==> s[0] != '0'
  }

  lemma {:induction false} ValueOfDecimal(n: nat)
    ensures Value(Decimal(n)) == n && NoLeadingZero(Decimal(n)) && (n > 0 ==> Decimal(n)[0] != '0')
  {
    if n < 10 {
      assert Decimal(n)[..0] == "";
    } else {
      ValueOfDecimal(n / 10);
      assert Decimal(n)[..|Decimal(n)| - 1] == Decimal(n / 10);
    }
  }

  lemma {:induction false} ValuePositive(s: string)
    requires AllDigits(s) && s != "" && s[0] != '0'
    ensures Value(s) > 0
  {
    if |s| == 1 {
      assert s[..0] == "";
    } else {
      ValuePositive(s[..|s| - 1]);
    }
  }

  /** It is the only text without leading zeros that reads as n. */
  lemma {:induction false} DecimalUnique(s: string)
    requires s != "" && AllDigits(s) && NoLeadingZero(s)
    ensures s == Decimal(Value(s))
  {
    var front := s[..|s| - 1];
    if |s| == 1 {
      assert front == "";
      assert Digit(DigitOf(s[0])) == s[0];
    } else {
      ValuePositive(front);
      DecimalUnique(front);
      assert s == front + [s[|s| - 1]];
      assert Value(s) / 10 == Value(front) && Value(s) % 10 == DigitOf(s[|s| - 1]);
    }
  }

  /** Dividing by d and then by b is dividing by their product. */
  lemma DivDiv(n: nat, d: nat, b: nat)
    requires d > 0 && b > 0
    ensures b * d > 0 && n / d / b == n / (b * d)
  {
    var q, x := n / d / b, (n / d) % b;
    assert b * d >= d by { MulAtLeast(b, d); }
    assert n == (n / d) * d + n % d;
    assert n / d == q * b + x;
    assert (q * b + x) * d == q * (b * d) + x * d;
    assert 0 <= x * d <= b * d - d by {
      MulNonNegative(x, d);
      MulNonNegative(b - 1 - x, d);
      assert (b - 1 - x) * d == b * d - d - x * d;
    }
    QuotientIs(n, b * d, q, x * d + n % d);
  }

  lemma DivideByTens(n: nat, k: nat)
    ensures Pow(10, k) > 0 && Pow(10, k + 1) > 0
    ensures n / Pow(10, k) / 10 == n / Pow(10, k + 1)
  {
    PowPositive(10, k);
    PowPositive(10, k + 1);
    DivDiv(n, Pow(10, k), 10);
  }

  lemma NextDivisor(n: nat, k: nat)
    requires Pow(10, k) > 0 && n / Pow(10, k) > 9
    ensures Pow(10, k + 1) == 10 * Pow(10, k) <= n && n / Pow(10, k + 1) > 0
  {
    DivideByTens(n, k);
    TenTimes(n, Pow(10, k));
  }

  lemma TenTimes(n: nat, d: nat)
    requires d > 0 && n / d > 9
    ensures 10 * d <= n
  {
    assert n == (n / d) * d + n % d;
    MulNonNegative(n / d - 10, d);
    assert (n / d - 10) * d == (n / d) * d - 10 * d;
  }

  lemma PreviousDivisor(n: nat, k: nat)
    ensures Pow(10, k) > 0
    ensures k == 0 ==> Pow(10, k) / 10 == 0
    ensures k > 0 ==> Pow(10, k) / 10 == Pow(10, k - 1) > 0 && n / Pow(10, k - 1) / 10 == n / Pow(10, k)
  {
    if k > 0 {
      DivideByTens(n, k - 1);
    }
  }

  /** The loop that looks for the first divisor. That 10 * divisor has a UInt's type is checked at the
      multiplication. */
  method FindDivisor(number: UInt) returns (divisor: UInt, ghost k: nat)
    ensures divisor == Pow(10, k) > 0 && number / divisor <= 9
    ensures k > 0 ==> number / divisor > 0
  {
    divisor, k := 1, 0;
    while number / divisor > 9
      invariant divisor == Pow(10, k) > 0
      invariant k > 0 ==> number / divisor > 0
      decreases number - divisor
    {
      NextDivisor(number, k);
      divisor := divisor * 10;
      k := k + 1;
    }
  }

  lemma DecimalStep(q: nat)
    ensures Decimal(q) == (if q < 10 then "" else Decimal(q / 10)) + [Digit(q % 10)]
  {
  }

  /** UnityPrintNumberUnsigned. */
  method PrintNumberUnsigned(number: UInt) returns (out: string)
    ensures out == Decimal(number)
  {
    ghost var k;
    var divisor;
    divisor, k := FindDivisor(number);
    out := "";
    ghost var q := number / divisor;
    while true
      invariant divisor == Pow(10, k) > 0 && q == number / divisor
      invariant k > 0 ==> q > 0
      invariant out == if q < 10 then "" else Decimal(q / 10)
      decreases k
    {
      DecimalStep(q);
      out := out + [Digit(number / divisor % 10)];
      PreviousDivisor(number, k);
      divisor := divisor / 10;
      if divisor == 0 {
        break;
      }
      k := k - 1;
      q := number / divisor;
    }
  }

  // ----- hexadecimal -------------------------------------------------------------------------------

  predicate IsHexDigit(c: char) { IsDigit(c) || 'A' <= c <= 'F' }

  function HexDigitOf(c: char): nat
    requires IsHexDigit(c)
  {
    if IsDigit(c) then DigitOf(c) else c as int - 'A' as int + 10
  }

  function HexDigit(d: nat): (c: char)
    requires d < 16
    ensures IsHexDigit(c) && HexDigitOf(c) == d
  {
    if d <= 9 then (d + '0' as int) as char else ('A' as int - 10 + d) as char
  }

  /** Reading a run of upper-case hexadecimal digits. */
  function HexValue(s: string): nat
    requires forall i :: 0 <= i < |s| ==> IsHexDigit(s[i])
  {
    if s == "" then 0 else 16 * HexValue(s[..|s| - 1]) + HexDigitOf(s[|s| - 1])
  }

  /** The lowest k hexadecimal digits of n. */
  function HexDigits(n: nat, k: nat): (s: string)
    ensures |s| == k && forall i :: 0 <= i < |s| ==> IsHexDigit(s[i])
    decreases k
  {
    if k == 0 then "" else HexDigits(n / 16, k - 1) + [HexDigit(n % 16)]
  }

  lemma LowDigits(n: nat, m: nat)
    requires m > 0
    ensures n % (16 * m) == 16 * (n / 16 % m) + n % 16
  {
    var q := n / 16;
    var c := q / m;
    assert q == c * m + q % m;
    assert c * (16 * m) == 16 * (c * m);
    QuotientIs(n, 16 * m, c, 16 * (q % m) + n % 16);
    assert n == (16 * m) * (n / (16 * m)) + n % (16 * m);
  }

  lemma {:induction false} HexValueOfDigits(n: nat, k: nat)
    ensures Pow(16, k) > 0 && HexValue(HexDigits(n, k)) == n % Pow(16, k)
    decreases k
  {
    PowPositive(16, k);
    if k > 0 {
      HexValueOfDigits(n / 16, k - 1);
      assert HexDigits(n, k)[..k - 1] == HexDigits(n / 16, k - 1);
      LowDigits(n, Pow(16, k - 1));
    }
  }

  /** n >> bits. */
  function ShiftRight(n: nat, bits: nat): nat {
    if bits == 0 then n else ShiftRight(n, bits - 1) / 2
  }

  lemma ShiftNibble(n: nat, bits: nat)
    ensures ShiftRight(n, bits + 4) == ShiftRight(n, bits) / 16
  {
    assert ShiftRight(n, bits + 4) == ShiftRight(n, bits + 3) / 2;
    assert ShiftRight(n, bits + 3) == ShiftRight(n, bits + 2) / 2;
    assert ShiftRight(n, bits + 2) == ShiftRight(n, bits + 1) / 2;
  }

  lemma HexDigitsStep(n: nat, k: nat)
    requires k > 0
    ensures HexDigits(n, k) == HexDigits(n / 16, k - 1) + [HexDigit(n % 16)]
  {
  }

  /** The loop over the nibbles, highest first. */
  method PrintNibbles(number: UInt, count: nat) returns (out: string)
    requires count <= 16
    ensures out == HexDigits(number, count)
  {
    var nibbles := count;
    out := "";
    ghost var rest := ShiftRight(number, 4 * count);
    while nibbles > 0
      invariant 0 <= nibbles <= count && rest == ShiftRight(number, 4 * nibbles)
      invariant out == HexDigits(rest, count - nibbles)
    {
      nibbles := nibbles - 1;
      ShiftNibble(number, 4 * nibbles);
      rest := ShiftRight(number, 4 * nibbles);
      HexDigitsStep(rest, count - nibbles);
      var nibble := ShiftRight(number, 4 * nibbles) % 16;
      out := out + [HexDigit(nibble)];
    }
  }

  /** UnityPrintNumberHex; a negative count of nibbles is a large one once converted to unsigned. */
  method PrintNumberHex(number: UInt, nibblesToPrint: int) returns (out: string)
    requires -128 <= nibblesToPrint < 128
    ensures |out| == if 0 <= nibblesToPrint <= 16 then nibblesToPrint else 16
    ensures forall i :: 0 <= i < |out| ==> IsHexDigit(out[i])
    ensures Pow(16, |out|) > 0 && HexValue(out) == number % Pow(16, |out|)
  {
    var nibbles := nibblesToPrint;
    if nibbles < 0 || nibbles > 16 {
      nibbles := 16;
    }
    out := PrintNibbles(number, nibbles);
    HexValueOfDigits(number, nibbles);
  }

  // ----- the integer part of the floating-point printer ---------------------------------------------

  /** A number as it is written: mantissa digits, how many of them follow the point, and exponent. */
  datatype Number = Malformed | Number(m: nat, frac: nat, exp: int)

  datatype Mantissa = Mantissa(m: nat, frac: nat, dot: bool)

  predicate Plain(s: string) {
    forall i :: 0 <= i < |s| ==> IsDigit(s[i]) || s[i] == '.'
  }

  /** Reading a mantissa from left to right. */
  function ReadMantissa(s: string): Mantissa
    requires Plain(s)
  {
    if s == "" then Mantissa(0, 0, false)
    else
      var before, c := ReadMantissa(s[..|s| - 1]), s[|s| - 1];
      if c == '.' then before.(dot := true)
      else Mantissa(10 * before.m + DigitOf(c), before.frac + (if before.dot then 1 else 0), before.dot)
  }

  function Find(s: string, c: char): (k: nat)
    ensures k <= |s| && (forall i :: 0 <= i < k ==> s[i] != c) && (k < |s| ==> s[k] == c)
  {
    if s == "" || s[0] == c then 0 else 1 + Find(s[1..], c)
  }

  function Parse(s: string): Number {
    var k := Find(s, 'e');
    if !Plain(s[..k]) then Malformed
    else
      var mantissa := ReadMantissa(s[..k]);
      if k == |s| then Number(mantissa.m, mantissa.frac, 0)
      else if |s| < k + 3 || (s[k + 1] != '+' && s[k + 1] != '-') || !AllDigits(s[k + 2..]) then Malformed
      else
        var e: int := Value(s[k + 2..]);
        Number(mantissa.m, mantissa.frac, if s[k + 1] == '-' then -e else e)
  }

  function Reverse(s: string): (r: string)
    ensures |r| == |s|
    ensures AllDigits(s) ==> AllDigits(r)
  {
    if s == "" then "" else [s[|s| - 1]] + Reverse(s[..|s| - 1])
  }

  /** Digits with a point before the last d of them. */
  function WithPoint(digits: string, d: nat): string
    requires d <= |digits|
  {
    if d == 0 then digits else digits[..|digits| - d] + "." + digits[|digits| - d..]
  }

  lemma {:induction false} ReadWithPoint(a: string, b: string)
    requires AllDigits(a) && AllDigits(b)
    ensures Plain(a + "." + b) && ReadMantissa(a + "." + b) == Mantissa(Value(a + b), |b|, true)
  {
    if b == "" {
      assert (a + "." + b)[..|a|] == a;
      ReadDigits(a);
      assert a + b == a;
    } else {
      var front := b[..|b| - 1];
      ReadWithPoint(a, front);
      assert (a + "." + b)[..|a| + |b|] == a + "." + front;
      assert (a + b)[..|a + b| - 1] == a + front;
    }
  }

  lemma {:induction false} ReadDigits(a: string)
    requires AllDigits(a)
    ensures ReadMantissa(a) == Mantissa(Value(a), 0, false)
  {
    if a != "" {
      ReadDigits(a[..|a| - 1]);
    }
  }

  lemma ReadText(digits: string, d: nat)
    requires AllDigits(digits) && d < |digits|
    ensures Plain(WithPoint(digits, d))
    ensures var r := ReadMantissa(WithPoint(digits, d)); r.m == Value(digits) && r.frac == d
  {
    if d == 0 {
      ReadDigits(digits);
    } else {
      var a, b := digits[..|digits| - d], digits[|digits| - d..];
      assert digits == a + b && WithPoint(digits, d) == a + "." + b;
      ReadWithPoint(a, b);
    }
  }

  lemma FindAfter(a: string, b: string, c: char)
    requires forall i :: 0 <= i < |a| ==> a[i] != c
    ensures Find(a + [c] + b, c) == |a|
    ensures Find(a, c) == |a|
  {
    var k := Find(a + [c] + b, c);
    assert (a + [c] + b)[|a|] == c;
    assert forall i :: 0 <= i < |a| ==> (a + [c] + b)[i] == a[i];
  }

  lemma FewerDigits(n: nat, d: nat)
    requires d <= 10 && n < Pow(10, 10 - d)
    ensures d == 10 ==> n == 0
    ensures d < 10 ==> n / 10 < Pow(10, 9 - d)
  {
    if d < 10 {
      assert Pow(10, 10 - d) == 10 * Pow(10, 9 - d);
    } else {
      assert Pow(10, 0) == 1;
    }
  }

  /** The decimal digits of n, with leading zeros up to `least` digits, and none beyond. */
  function Padded(n: nat, least: nat): (s: string)
    ensures AllDigits(s) && |s| >= least
    decreases n, least
  {
    if n == 0 && least == 0 then ""
    else Padded(n / 10, if least > 0 then least - 1 else 0) + [Digit(n % 10)]
  }

  /** The lowest k decimal digits of n. */
  function LowDecimals(n: nat, k: nat): (s: string)
    ensures |s| == k && AllDigits(s)
    decreases k
  {
    if k == 0 then "" else LowDecimals(n / 10, k - 1) + [Digit(n % 10)]
  }

  lemma {:induction false} PaddedNone(n: nat)
    ensures Padded(n, 0) == if n == 0 then "" else Decimal(n)
  {
    if n > 0 {
      PaddedNone(n / 10);
    }
  }

  /** Padding to one digit more than d gives the whole part in its usual form, then d digits. */
  lemma {:induction false} PaddedIs(n: nat, d: nat)
    ensures Pow(10, d) > 0
    ensures Padded(n, d + 1) == Decimal(n / Pow(10, d)) + LowDecimals(n, d)
    decreases d
  {
    PowPositive(10, d);
    if d == 0 {
      PaddedNone(n / 10);
      assert Decimal(n) + "" == Decimal(n);
    } else {
      PowPositive(10, d - 1);
      PaddedIs(n / 10, d - 1);
      DivDiv(n, 10, Pow(10, d - 1));
      var whole, low, last := Decimal(n / Pow(10, d)), LowDecimals(n / 10, d - 1), [Digit(n % 10)];
      assert (whole + low) + last == whole + (low + last);
    }
  }

  /** The usual form of n / 10^d: the whole part without a leading zero, then exactly d digits after a
      point, or no point if d is 0. */
  function Fixed(n: nat, d: nat): string {
    PowPositive(10, d);
    Decimal(n / Pow(10, d)) + if d == 0 then "" else "." + LowDecimals(n, d)
  }

  lemma FixedIs(n: nat, d: nat)
    ensures WithPoint(Padded(n, d + 1), d) == Fixed(n, d)
  {
    PaddedIs(n, d);
    var whole, low := Decimal(n / Pow(10, d)), LowDecimals(n, d);
    assert (whole + low)[..|whole + low| - d] == whole;
    assert (whole + low)[|whole + low| - d..] == low;
    assert d == 0 ==> whole + low == whole;
    assert (whole + ".") + low == whole + ("." + low);
  }

  /** The sign and the digits of an exponent, at least two of them. */
  function ExponentText(e: int): string {
    var m: nat := if e < 0 then -e else e;
    ['e', if e < 0 then '-' else '+'] + (if m < 10 then "0" else "") + Decimal(m)
  }

  lemma PaddedTwo(m: nat)
    ensures Padded(m, 2) == (if m < 10 then "0" else "") + Decimal(m)
  {
    PaddedNone(m / 10);
    if m < 10 {
      assert Padded(0, 1) == Padded(0, 0) + [Digit(0)];
    } else {
      PaddedIs(m / 10, 0);
      assert Decimal(m / 10) + "" == Decimal(m / 10);
    }
  }

  lemma PaddedStep(n: nat, least: nat, rest: string)
    requires n != 0 || least != 0
    ensures Padded(n, least) + rest
         == Padded(n / 10, if least > 0 then least - 1 else 0) + ([Digit(n % 10)] + rest)
  {
  }

  lemma ValueSnoc(s: string, c: char)
    requires AllDigits(s) && IsDigit(c)
    ensures AllDigits(s + [c]) && Value(s + [c]) == 10 * Value(s) + DigitOf(c)
  {
    assert (s + [c])[..|s|] == s;
  }

  lemma {:induction false} PaddedValue(n: nat, least: nat)
    ensures Value(Padded(n, least)) == n
    decreases n, least
  {
    if n != 0 || least != 0 {
      var l := if least > 0 then least - 1 else 0;
      PaddedValue(n / 10, l);
      ValueSnoc(Padded(n / 10, l), Digit(n % 10));
    }
  }

  lemma {:induction false} PaddedLead(n: nat, least: nat)
    ensures |Padded(n, least)| > least ==> Padded(n, least)[0] != '0'
    decreases least
  {
    if least == 0 {
      PaddedNone(n);
      if n > 0 {
        ValueOfDecimal(n);
      }
    } else {
      PaddedLead(n / 10, least - 1);
    }
  }

  /** The digits of n, last first, at least `least` of them: both buffer-filling loops. */
  method FillBuffer(buf: array<char>, n0: nat, least: nat) returns (digits: nat)
    requires buf.Length == 16 && n0 < Pow(10, 10) && least <= 10
    modifies buf
    ensures least <= digits <= 10 && AllDigits(buf[..digits])
    ensures Value(Reverse(buf[..digits])) == n0
    ensures digits > least ==> Reverse(buf[..digits])[0] != '0'
    ensures Reverse(buf[..digits]) == Padded(n0, least)
  {
    digits := 0;
    var n: nat := n0;
    ghost var rest := least;
    assert Padded(n0, least) == Padded(n0, least) + "";
    while n != 0 || digits < least
      invariant digits <= 10 && AllDigits(buf[..digits])
      invariant n < Pow(10, 10 - digits) && rest == if digits < least then least - digits else 0
      invariant Padded(n0, least) == Padded(n, rest) + Reverse(buf[..digits])
      decreases n, least - digits
    {
      ghost var before := buf[..digits];
      FewerDigits(n, digits);
      PaddedStep(n, rest, Reverse(before));
      buf[digits] := Digit(n % 10);
      assert buf[..digits + 1][..digits] == before;
      digits := digits + 1;
      rest := if rest > 0 then rest - 1 else 0;
      n := n / 10;
    }
    assert Padded(0, 0) + Reverse(buf[..digits]) == Reverse(buf[..digits]);
    PaddedValue(n0, least);
    PaddedLead(n0, least);
  }

  /** The buffer printed backwards, with the point put in when `decimals` digits are left. */
  method OutputBuffer(buf: array<char>, count: nat, decimals: nat) returns (out: string)
    requires count <= buf.Length && decimals < count
    ensures out == WithPoint(Reverse(buf[..count]), decimals)
  {
    out := "";
    var digits := count;
    ghost var text := Reverse(buf[..count]);
    while digits > 0
      invariant 0 <= digits <= count
      invariant out == if digits < decimals then text[..count - decimals] + "." + text[count - decimals..count - digits]
                       else text[..count - digits]
    {
      if digits == decimals {
        out := out + ".";
      }
      ReverseAt(buf[..count], digits - 1);
      digits := digits - 1;
      out := out + [buf[digits]];
    }
  }

  lemma {:induction false} ReverseAt(s: string, i: nat)
    requires i < |s|
    ensures Reverse(s)[|s| - 1 - i] == s[i]
  {
    if i < |s| - 1 {
      ReverseAt(s[..|s| - 1], i);
    }
  }

  /** Dropping trailing zeros after the point: n0 is n with `t` zeros put back. */
  method DropZeros(n0: nat, decimals0: nat) returns (n: nat, decimals: nat, ghost t: nat)
    requires n0 > 0
    ensures decimals + t == decimals0 && n > 0 && n * Pow(10, t) == n0
    ensures decimals > 0 ==> n % 10 != 0
  {
    n, decimals, t := n0, decimals0, 0;
    while decimals > 0 && n % 10 == 0
      invariant decimals + t == decimals0 && n > 0 && n * Pow(10, t) == n0
      decreases decimals
    {
      assert n == 10 * (n / 10);
      assert (n / 10) * (10 * Pow(10, t)) == (10 * (n / 10)) * Pow(10, t);
      n := n / 10;
      decimals := decimals - 1;
      t := t + 1;
    }
  }

  /** The text `e`, sign and digits of a non-zero exponent. */
  predicate IsExponent(s: string, exponent: int) {
    && |s| >= 3 && s[0] == 'e' && s[1] == (if exponent < 0 then '-' else '+')
    && AllDigits(s[2..]) && Value(s[2..]) == if exponent < 0 then -exponent else exponent
  }

  lemma ParsePlain(mantissa: string)
    requires Plain(mantissa)
    ensures Parse(mantissa) == Number(ReadMantissa(mantissa).m, ReadMantissa(mantissa).frac, 0)
  {
    assert mantissa[..|mantissa|] == mantissa;
  }

  lemma ParseParts(mantissa: string, tail: string, exponent: int)
    requires Plain(mantissa) && IsExponent(tail, exponent)
    ensures Parse(mantissa + tail) == Number(ReadMantissa(mantissa).m, ReadMantissa(mantissa).frac, exponent)
  {
    var s, k := mantissa + tail, |mantissa|;
    assert s == mantissa + ['e'] + tail[1..];
    FindAfter(mantissa, tail[1..], 'e');
    assert s[..k] == mantissa;
    assert s[k + 1] == tail[1];
    assert s[k + 2..] == tail[2..];
  }

  method PrintMantissa(buf: array<char>, n: nat, decimals: nat) returns (out: string)
    requires buf.Length == 16 && 0 < n < 1_000_000 && decimals <= 9
    modifies buf
    ensures Plain(out) && ReadMantissa(out).m == n && ReadMantissa(out).frac == decimals
    ensures out == Fixed(n, decimals)
  {
    TenDigits();
    var digits := FillBuffer(buf, n, decimals + 1);
    ReadText(Reverse(buf[..digits]), decimals);
    FixedIs(n, decimals);
    out := OutputBuffer(buf, digits, decimals);
  }

  lemma ExponentIs(e: int)
    requires e != 0
    ensures IsExponent(ExponentText(e), e)
    ensures |ExponentText(e)| >= 4 && (|ExponentText(e)| > 4 ==> ExponentText(e)[2] != '0')
  {
    var m: nat := if e < 0 then -e else e;
    PaddedTwo(m);
    PaddedValue(m, 2);
    PaddedLead(m, 2);
    assert ExponentText(e)[2..] == Padded(m, 2);
  }

  /** The digits of an exponent, at least two. */
  method PrintMagnitude(buf: array<char>, m: nat) returns (out: string)
    requires buf.Length == 16 && m < 0x8000_0000
    modifies buf
    ensures out == Padded(m, 2)
  {
    TenDigits();
    var digits := FillBuffer(buf, m, 2);
    out := OutputBuffer(buf, digits, 0);
  }

  /** The exponent as it is printed. */
  method PrintExponent(buf: array<char>, exponent0: int) returns (out: string)
    requires buf.Length == 16 && exponent0 != 0 && -0x8000_0000 < exponent0 < 0x8000_0000
    modifies buf
    ensures IsExponent(out, exponent0)
    ensures |out| >= 4 && (|out| > 4 ==> out[2] != '0')
    ensures out == ExponentText(exponent0)
  {
    var exponent: Int32 := exponent0;
    out := "e";
    if exponent < 0 {
      out := out + "-";
      exponent := -exponent;
    } else {
      out := out + "+";
    }
    var text := PrintMagnitude(buf, exponent);
    PaddedTwo(exponent);
    assert out + text == ExponentText(exponent0);
    out := out + text;
    ExponentIs(exponent0);
  }

  lemma TenDigits()
    ensures Pow(10, 10) == 10_000_000_000 && Pow(10, 6) == 1_000_000 && Pow(10, 5) == 100_000
    ensures Pow(10, 4) == 10_000 && Pow(10, 3) == 1000 && Pow(10, 2) == 100 && Pow(10, 1) == 10
  {
    assert Pow(10, 5) == 100_000;
    assert Pow(10, 10) == 10 * 10 * 10 * 10 * 10 * Pow(10, 5);
  }

  /** The number n0 * 10^exponent0, written without a trailing zero after the point, with an exponent
      only outside 0 >= exponent0 >= -9, and then with one digit before the point. */
  predicate Denotes(n0: nat, exponent0: int, r: Number) {
    && r.Number?
    && r.exp - r.frac >= exponent0
    && r.m * Pow(10, r.exp - r.frac - exponent0) == n0
    && (r.frac > 0 ==> r.m % 10 != 0)
    && (r.exp != 0 <==> !(-9 <= exponent0 <= 0))
    && (r.exp != 0 ==> Pow(10, r.frac) <= r.m < Pow(10, r.frac + 1))
  }

  function TextOf(r: Number): string
    requires r.Number?
  {
    Fixed(r.m, r.frac) + if r.exp == 0 then "" else ExponentText(r.exp)
  }

  lemma {:induction false} PowMonotone(b: nat, i: nat, j: nat)
    requires b > 0 && i <= j
    ensures 0 < Pow(b, i) <= Pow(b, j)
    decreases j
  {
    PowPositive(b, i);
    if i < j {
      PowMonotone(b, i, j - 1);
      assert b * Pow(b, j - 1) >= Pow(b, j - 1);
    }
  }

  lemma {:induction false} PowPlus(b: nat, i: nat, j: nat)
    ensures Pow(b, i + j) == Pow(b, i) * Pow(b, j)
  {
    if i > 0 {
      PowPlus(b, i - 1, j);
      assert b * (Pow(b, i - 1) * Pow(b, j)) == (b * Pow(b, i - 1)) * Pow(b, j);
    }
  }

  lemma Regroup(m: nat, a: nat, p: nat)
    ensures m * ((10 * a) * p) == (10 * (m * a)) * p
  {
    assert (10 * a) * p == 10 * (a * p);
    assert m * (10 * (a * p)) == 10 * (m * (a * p));
    assert m * (a * p) == (m * a) * p;
  }

  /** A number with more zeros put back is a multiple of ten, at least ten times as large. */
  lemma MoreZeros(m1: nat, t1: nat, m2: nat, t2: nat)
    requires m1 * Pow(10, t1) == m2 * Pow(10, t2) && t1 < t2
    ensures m1 % 10 == 0 && m1 >= 10 * m2
  {
    var k := t2 - t1 - 1;
    var p, a := Pow(10, t1), Pow(10, k);
    PowPositive(10, t1);
    PowPositive(10, k);
    PowPlus(10, k + 1, t1);
    assert Pow(10, t2) == (10 * a) * p;
    Regroup(m2, a, p);
    SameFactor(m1, 10 * (m2 * a), p);
    MulAtLeast(a, m2);
  }

  lemma SameFactor(a: int, b: int, p: nat)
    requires p > 0 && a * p == b * p
    ensures a == b
  {
    var d := if a > b then a - b else b - a;
    assert d * p == 0;
    if d >= 1 {
      MulAtLeast(d, p);
    }
  }

  /** With as many zeros dropped, two such forms are one. */
  lemma SameZeros(n0: nat, exponent0: int, r1: Number, r2: Number)
    requires Denotes(n0, exponent0, r1) && Denotes(n0, exponent0, r2)
    requires r1.exp - r1.frac == r2.exp - r2.frac
    ensures r1 == r2
  {
    var p := Pow(10, r1.exp - r1.frac - exponent0);
    PowPositive(10, r1.exp - r1.frac - exponent0);
    SameFactor(r1.m, r2.m, p);
    if r1.frac < r2.frac {
      PowMonotone(10, r1.frac + 1, r2.frac);
    } else if r2.frac < r1.frac {
      PowMonotone(10, r2.frac + 1, r1.frac);
    }
  }

  lemma NoMoreZeros(n0: nat, exponent0: int, r1: Number, r2: Number)
    requires n0 > 0 && Denotes(n0, exponent0, r1) && Denotes(n0, exponent0, r2)
    ensures r1.exp - r1.frac >= r2.exp - r2.frac
  {
    var t1, t2 := r1.exp - r1.frac - exponent0, r2.exp - r2.frac - exponent0;
    assert Pow(10, 0) == 1 && Pow(10, 1) == 10;
    PowPositive(10, r2.frac);
    if t1 < t2 {
      MoreZeros(r1.m, t1, r2.m, t2);
    }
  }

  /** There is only one way to write it, so the text is fixed by the number alone. */
  lemma DenotesUnique(n0: nat, exponent0: int, r1: Number, r2: Number)
    requires n0 > 0 && Denotes(n0, exponent0, r1) && Denotes(n0, exponent0, r2)
    ensures r1 == r2
  {
    NoMoreZeros(n0, exponent0, r1, r2);
    NoMoreZeros(n0, exponent0, r2, r1);
    SameZeros(n0, exponent0, r1, r2);
  }

  /** Mantissa and exponent, once they are fixed. */
  method PrintParts(buf: array<char>, n: nat, decimals: nat, exponent: int) returns (out: string)
    requires buf.Length == 16 && 0 < n < 1_000_000 && decimals <= 9 && -0x8000_0000 < exponent < 0x8000_0000
    modifies buf
    ensures Parse(out) == Number(n, decimals, exponent) && out == TextOf(Number(n, decimals, exponent))
  {
    var mantissa := PrintMantissa(buf, n, decimals);
    out := mantissa;
    if exponent != 0 {
      var tail := PrintExponent(buf, exponent);
      ParseParts(mantissa, tail, exponent);
      out := out + tail;
    } else {
      assert mantissa + "" == mantissa;
      ParsePlain(mantissa);
    }
  }

  /** UnityPrintFloat once the number is scaled to a six-digit integer and a power of ten, for every
      exponent for which `exponent + decimals` is still an int. The text reads back as exactly
      n * 10^exponent and is the one text for that number. Every write into the 16-cell buffer is in
      bounds. */
  method PrintScaled(n0: nat, exponent0: Int32) returns (out: string)
    requires 100_000 <= n0 <= 999_999 && exponent0 + 5 < 0x8000_0000
    ensures Denotes(n0, exponent0, Parse(out)) && out == TextOf(Parse(out))
  {
    var buf := new char[16](_ => '0');
    var decimals0: nat := if exponent0 <= 0 && exponent0 >= -9 then -exponent0 else 5;
    var exponent: Int32 := exponent0 + decimals0;
    var n, decimals;
    ghost var t;
    n, decimals, t := DropZeros(n0, decimals0);
    IsDenoted(n0, exponent0, n, decimals, t);
    out := PrintParts(buf, n, decimals, exponent);
  }

  lemma IsDenoted(n0: nat, exponent0: int, n: nat, decimals: nat, t: nat)
    requires 100_000 <= n0 <= 999_999 && n > 0 && n * Pow(10, t) == n0
    requires decimals + t == if -9 <= exponent0 <= 0 then -exponent0 else 5
    requires decimals > 0 ==> n % 10 != 0
    ensures Denotes(n0, exponent0, Number(n, decimals, exponent0 + decimals + t)) && n <= n0
  {
    PowPositive(10, t);
    MulAtLeast(Pow(10, t), n);
    if !(-9 <= exponent0 <= 0) {
      LeadingDigit(n, t);
    }
  }

  lemma LeadingDigit(n: nat, t: nat)
    requires t <= 5 && 100_000 <= n * Pow(10, t) <= 999_999
    ensures Pow(10, 5 - t) <= n < Pow(10, 5 - t + 1)
  {
    TenDigits();
    assert Pow(10, 0) == 1;
    assert t == 0 || t == 1 || t == 2 || t == 3 || t == 4 || t == 5;
  }
}
