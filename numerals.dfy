/** The conversions between numbers and text that Lua 5.2 performs.  lua_tolstring writes a
    number with the C format "%.14g" (LUA_NUMBER_FMT in luaconf.h).  lua_tonumberx reads a
    string as luaO_str2d in lobject.c does: a decimal numeral as C's strtod reads it, a
    hexadecimal one as lua_strx2number reads it.  Numbers are exact reals here, so the
    decimal expansion "%.14g" rounds is the exact value of the number. */
module Numerals {
  import opened Base

  // ---------------------------------------------------------------------
  // Digits
  // ---------------------------------------------------------------------

  predicate IsDigit(b: byte) { 0x30 <= b <= 0x39 }

  /** The hexadecimal digits of C's isxdigit. */
  predicate IsHexDigit(b: byte) { IsDigit(b) || 0x41 <= b <= 0x46 || 0x61 <= b <= 0x66 }

  /** The characters C's isspace accepts in the "C" locale. */
  predicate IsSpace(b: byte) { b == 0x20 || 0x09 <= b <= 0x0D }

  predicate AllDigits(s: Bytes) { forall i :: 0 <= i < |s| ==> IsDigit(s[i]) }

  function Digit(d: nat): byte
    requires d < 10
  {
    (0x30 + d) as byte
  }

  /** The decimal digits of `n`, most significant first, without leading zeros. */
  function DigitsOf(n: nat): (r: Bytes)
    ensures |r| >= 1 && AllDigits(r)
    ensures n > 0 ==> r[0] != 0x30
  {
    if n < 10 then [Digit(n)] else DigitsOf(n / 10) + [Digit(n % 10)]
  }

  /** The value of a decimal digit; the numerals read below hold nothing else, and any other
      byte counts as 0. */
  function DigitValue(b: byte): (v: nat)
    ensures v < 10
  {
    if IsDigit(b) then (b - 0x30) as nat else 0
  }

  /** The number a string of decimal digits denotes. */
  function DigitsValue(s: Bytes): nat
  {
    if s == [] then 0 else DigitsValue(s[..|s| - 1]) * 10 + DigitValue(s[|s| - 1])
  }

  /** The value of a hexadecimal digit, as DigitValue for decimal ones. */
  function HexDigitValue(b: byte): (v: nat)
    ensures v < 16
  {
    if IsDigit(b) then (b - 0x30) as nat
    else if 0x41 <= b <= 0x46 then (b - 0x41) as nat + 10
    else if 0x61 <= b <= 0x66 then (b - 0x61) as nat + 10
    else 0
  }

  /** The number a string of hexadecimal digits denotes. */
  function HexValue(s: Bytes): nat
  {
    if s == [] then 0 else HexValue(s[..|s| - 1]) * 16 + HexDigitValue(s[|s| - 1])
  }

  lemma {:induction false} DigitsRoundTrip(n: nat)
    ensures DigitsValue(DigitsOf(n)) == n
  {
    if n >= 10 {
      var s := DigitsOf(n);
      assert s[..|s| - 1] == DigitsOf(n / 10);
      DigitsRoundTrip(n / 10);
    }
  }

  /** The integer `n` written in decimal, with a leading '-' when negative. */
  function IntText(n: int): Bytes
  {
    if n < 0 then [0x2D] + DigitsOf(-n) else DigitsOf(n)
  }

  function Zeros(k: nat): (r: Bytes)
    ensures |r| == k && AllDigits(r)
    ensures forall i :: 0 <= i < k ==> r[i] == 0x30
  {
    if k == 0 then [] else Zeros(k - 1) + [0x30]
  }

  function TrimTrailingZeros(s: Bytes): (r: Bytes)
    ensures r <= s
    ensures r == [] || r[|r| - 1] != 0x30
    ensures forall i :: |r| <= i < |s| ==> s[i] == 0x30
  {
    if s != [] && s[|s| - 1] == 0x30 then TrimTrailingZeros(s[..|s| - 1]) else s
  }

  // ---------------------------------------------------------------------
  // Powers
  // ---------------------------------------------------------------------

  function Pow10(k: nat): (r: nat)
    ensures r >= 1
  {
    if k == 0 then 1 else 10 * Pow10(k - 1)
  }

  /** y * 10^k for every integer k, one factor of ten at a time. */
  function Shift(y: real, k: int): real
    decreases if k >= 0 then k else -k
  {
    if k == 0 then y else if k > 0 then 10.0 * Shift(y, k - 1) else Shift(y, k + 1) / 10.0
  }

  /** y * 2^k for every integer k: C's ldexp. */
  function BinaryShift(y: real, k: int): real
    decreases if k >= 0 then k else -k
  {
    if k == 0 then y else if k > 0 then 2.0 * BinaryShift(y, k - 1) else BinaryShift(y, k + 1) / 2.0
  }

  /** 10^k for every integer k. */
  function Scale(k: int): (r: real)
    ensures r > 0.0
    decreases if k >= 0 then k else -k
  {
    if k == 0 then 1.0 else if k > 0 then 10.0 * Scale(k - 1) else Scale(k + 1) / 10.0
  }

  lemma {:induction false} ScaleStep(k: int)
    ensures Scale(k + 1) == 10.0 * Scale(k)
  {
  }

  lemma {:induction false} ShiftStep(y: real, k: int)
    ensures Shift(y, k + 1) == 10.0 * Shift(y, k)
  {
  }

  lemma {:induction false} ScaleOfNat(k: nat)
    ensures Scale(k) == Pow10(k) as real
  {
    if k > 0 {
      ScaleOfNat(k - 1);
    }
  }

  lemma {:induction false} ScaleMono(a: int, b: int)
    requires a <= b
    ensures Scale(a) <= Scale(b)
    decreases b - a
  {
    if a < b {
      ScaleMono(a, b - 1);
      ScaleStep(b - 1);
    }
  }

  lemma {:induction false} Pow10Mono(a: nat, b: nat)
    requires a <= b
    ensures Pow10(a) <= Pow10(b)
    decreases b - a
  {
    if a < b {
      Pow10Mono(a, b - 1);
    }
  }

  /** Shifting a power of ten adds to its exponent. */
  lemma {:induction false} ShiftScale(j: int, k: int)
    ensures Shift(Scale(j), k) == Scale(j + k)
    decreases if k >= 0 then k else -k
  {
    if k > 0 {
      ShiftScale(j, k - 1);
      ScaleStep(j + k - 1);
    } else if k < 0 {
      ShiftScale(j, k + 1);
      ScaleStep(j + k);
    }
  }

  /** Two shifts make one. */
  lemma {:induction false} ShiftCompose(y: real, a: int, b: int)
    ensures Shift(Shift(y, a), b) == Shift(y, a + b)
    decreases if b >= 0 then b else -b
  {
    if b > 0 {
      ShiftCompose(y, a, b - 1);
      ShiftStep(y, a + b - 1);
    } else if b < 0 {
      ShiftCompose(y, a, b + 1);
      ShiftStep(y, a + b);
    }
  }

  /** A shift keeps the order of numbers. */
  lemma {:induction false} ShiftMono(y: real, z: real, k: int)
    requires y <= z
    ensures Shift(y, k) <= Shift(z, k)
    ensures y < z ==> Shift(y, k) < Shift(z, k)
    decreases if k >= 0 then k else -k
  {
    if k > 0 {
      ShiftMono(y, z, k - 1);
    } else if k < 0 {
      ShiftMono(y, z, k + 1);
    }
  }

  /** A difference shifts with its terms. */
  lemma {:induction false} ShiftDiff(a: real, b: real, c: real, k: int)
    requires a - b == c
    ensures Shift(a, k) - Shift(b, k) == Shift(c, k)
    decreases if k >= 0 then k else -k
  {
    if k > 0 {
      ShiftDiff(a, b, c, k - 1);
    } else if k < 0 {
      ShiftDiff(a, b, c, k + 1);
    }
  }

  lemma {:induction false} ShiftNeg(y: real, k: int)
    ensures Shift(-y, k) == -Shift(y, k)
    decreases if k >= 0 then k else -k
  {
    if k > 0 {
      ShiftNeg(y, k - 1);
    } else if k < 0 {
      ShiftNeg(y, k + 1);
    }
  }

  // ---------------------------------------------------------------------
  // The decade of a number and its 14 significant digits
  // ---------------------------------------------------------------------

  /** The decade of y >= 1: the x with 10^x <= y < 10^(x+1). */
  function DecadeUp(y: real): (x: nat)
    requires y >= 1.0
    ensures Scale(x) <= y < Scale(x + 1)
    decreases y.Floor
  {
    if y < 10.0 then 0
    else
      var x := DecadeUp(y / 10.0);
      ScaleStep(x);
      ScaleStep(x + 1);
      x + 1
  }

  lemma {:induction false} InverseShrinks(y: real)
    requires 0.0 < y < 0.1
    ensures 0 <= (1.0 / (y * 10.0)).Floor < (1.0 / y).Floor
  {
    var z := 1.0 / y;
    assert z * y == 1.0;
    assert z > 10.0;
    assert 1.0 / (y * 10.0) == z / 10.0;
  }

  /** The decade of 0 < y < 1, negated: the k with 10^-k <= y < 10^(-k+1). */
  function DecadeDown(y: real): (k: nat)
    requires 0.0 < y < 1.0
    ensures k >= 1 && Scale(-(k as int)) <= y < Scale(-(k as int) + 1)
    decreases (1.0 / y).Floor
  {
    if y >= 0.1 then 1
    else
      InverseShrinks(y);
      var k := DecadeDown(y * 10.0);
      ScaleStep(-(k as int) - 1);
      ScaleStep(-(k as int));
      k + 1
  }

  /** The decade of y > 0: the integer x with 10^x <= y < 10^(x+1). */
  function Decade(y: real): (x: int)
    requires y > 0.0
    ensures Scale(x) <= y < Scale(x + 1)
  {
    if y >= 1.0 then DecadeUp(y) else -(DecadeDown(y) as int)
  }

  /** The decade is the only x with 10^x <= y < 10^(x+1). */
  lemma {:induction false} DecadeIs(y: real, x: int)
    requires y > 0.0 && Scale(x) <= y < Scale(x + 1)
    ensures Decade(y) == x
  {
    var d := Decade(y);
    if d < x {
      ScaleMono(d + 1, x);
    } else if d > x {
      ScaleMono(x + 1, d);
    }
  }

  /** The integer nearest to s, a tie going to the even one: the rounding of IEEE 754, which
      glibc's printf applies to the exact value of the number. */
  function RoundHalfEven(s: real): (m: int)
    ensures m as real - 0.5 <= s <= m as real + 0.5
    ensures s == s.Floor as real ==> m == s.Floor
  {
    var f := s.Floor;
    var d := s - f as real;
    if d < 0.5 then f else if d > 0.5 then f + 1 else if f % 2 == 0 then f else f + 1
  }

  /** Shifting y from its decade x by 13 - x puts it among the 14-digit integers. */
  lemma {:induction false} ScaledIntoRange(y: real, x: int)
    requires y > 0.0 && Scale(x) <= y < Scale(x + 1)
    ensures Scale(13) <= Shift(y, 13 - x) < Scale(14)
  {
    ShiftMono(Scale(x), y, 13 - x);
    ShiftMono(y, Scale(x + 1), 13 - x);
    ShiftScale(x, 13 - x);
    ShiftScale(x + 1, 13 - x);
  }

  /** Rounding y shifted from its decade x gives an integer from 10^13 to 10^14. */
  lemma {:induction false} RoundedIntoRange(y: real, x: int, s: real, m: int)
    requires y > 0.0 && Scale(x) <= y < Scale(x + 1)
    requires s == Shift(y, 13 - x) && m as real - 0.5 <= s <= m as real + 0.5
    ensures Pow10(13) <= m <= Pow10(14)
  {
    ScaledIntoRange(y, x);
    ScaleOfNat(13);
    ScaleOfNat(14);
  }

  /** The 14 significant digits of y > 0, as an integer m with 10^13 <= m < 10^14, and the
      decimal exponent e of its first digit: y rounded to 14 digits is m * 10^(e - 13).  A
      rounding up to 10^14 carries into the exponent. */
  function Significand(y: real): (r: (nat, int))
    requires y > 0.0
    ensures Pow10(13) <= r.0 < Pow10(14)
  {
    var x := Decade(y);
    var m := RoundHalfEven(Shift(y, 13 - x));
    RoundedIntoRange(y, x, Shift(y, 13 - x), m);
    if m == Pow10(14) then (Pow10(13), x + 1) else (m, x)
  }

  /** x rounded to 14 significant digits: the number the "%.14g" text of x denotes. */
  function Rounded(x: real): real
  {
    if x == 0.0 then 0.0
    else
      var (m, e) := Significand(if x < 0.0 then -x else x);
      var v := Shift(m as real, e - 13);
      if x < 0.0 then -v else v
  }

  /** A number within half a unit of m, shifted back by k places, is within half a unit of
      10^k of m shifted by k places. */
  lemma {:induction false} WithinHalf(y: real, s: real, m: real, k: int, j: int)
    requires j == -k && s == Shift(y, j) && m - 0.5 <= s <= m + 0.5
    ensures Shift(m, k) - Shift(0.5, k) <= y <= Shift(m, k) + Shift(0.5, k)
  {
    ShiftCompose(y, j, k);
    assert j + k == 0;
    ShiftMono(m - 0.5, s, k);
    ShiftMono(s, m + 0.5, k);
    ShiftDiff(m, m - 0.5, 0.5, k);
    ShiftDiff(m + 0.5, m, 0.5, k);
  }

  /** A carry into the next decade denotes the same number. */
  lemma {:induction false} CarryShift(x: int, k: int, j: int)
    requires k == x - 13 && j == x + 1 - 13
    ensures Shift(Pow10(13) as real, j) == Shift(Pow10(14) as real, k)
  {
    ShiftCompose(Pow10(13) as real, 1, k);
    assert Shift(Pow10(13) as real, 1) == Pow10(14) as real;
  }

  lemma {:induction false} SignificandIs(y: real, x: int, s: real, m0: int)
    requires y > 0.0 && x == Decade(y) && s == Shift(y, 13 - x) && m0 == RoundHalfEven(s)
    ensures Significand(y) == if m0 == Pow10(14) then (Pow10(13), x + 1) else (m0, x)
  {
  }

  /** Without a carry, the significand m0 of y is within half a unit of y shifted. */
  lemma {:induction false} NearWithoutCarry(y: real, x: int, s: real, m0: int)
    requires s == Shift(y, 13 - x) && m0 as real - 0.5 <= s <= m0 as real + 0.5
    ensures Shift(m0 as real, x - 13) - Shift(0.5, x - 13) <= y
      <= Shift(m0 as real, x - 13) + Shift(0.5, x - 13)
  {
    WithinHalf(y, s, m0 as real, x - 13, 13 - x);
  }

  /** A carry writes 10^14 at decade x as 10^13 at decade x + 1. */
  lemma {:induction false} NearWithCarry(y: real, x: int, s: real)
    requires s == Shift(y, 13 - x) && Pow10(14) as real - 0.5 <= s <= Pow10(14) as real + 0.5
    ensures Shift(Pow10(13) as real, x + 1 - 13) - Shift(0.5, x - 13) <= y
      <= Shift(Pow10(13) as real, x + 1 - 13) + Shift(0.5, x - 13)
  {
    NearWithoutCarry(y, x, s, Pow10(14));
    CarryShift(x, x - 13, x + 1 - 13);
  }

  /** Rounding to 14 digits moves y by at most half a unit in its 14th digit. */
  lemma {:induction false} SignificandNear(y: real)
    requires y > 0.0
    ensures var h := Shift(0.5, Decade(y) - 13);
      Shift(Significand(y).0 as real, Significand(y).1 - 13) - h <= y
      <= Shift(Significand(y).0 as real, Significand(y).1 - 13) + h
  {
    SignificandIs(y, Decade(y), Shift(y, 13 - Decade(y)),
                  RoundHalfEven(Shift(y, 13 - Decade(y))));
    if RoundHalfEven(Shift(y, 13 - Decade(y))) == Pow10(14) {
      NearWithCarry(y, Decade(y), Shift(y, 13 - Decade(y)));
    } else {
      NearWithoutCarry(y, Decade(y), Shift(y, 13 - Decade(y)),
                       RoundHalfEven(Shift(y, 13 - Decade(y))));
    }
  }

  /** The number the text of x denotes is x to within half a unit in its 14th significant
      digit. */
  lemma {:induction false} RoundedIsNearest(x: real)
    requires x != 0.0
    ensures var h := Shift(0.5, Decade(if x < 0.0 then -x else x) - 13);
      -h <= Rounded(x) - x <= h
  {
    SignificandNear(if x < 0.0 then -x else x);
    NonzeroRounded(x, if x < 0.0 then -x else x,
                   Significand(if x < 0.0 then -x else x).0,
                   Significand(if x < 0.0 then -x else x).1,
                   Shift(Significand(if x < 0.0 then -x else x).0 as real,
                         Significand(if x < 0.0 then -x else x).1 - 13));
  }

  // ---------------------------------------------------------------------
  // Writing a number: "%.14g"
  // ---------------------------------------------------------------------

  lemma {:induction false} ZerosValue(k: nat)
    ensures DigitsValue(Zeros(k)) == 0
  {
    if k > 0 {
      assert Zeros(k)[..k - 1] == Zeros(k - 1);
      ZerosValue(k - 1);
    }
  }

  /** Leading zeros do not change the value of a numeral. */
  lemma {:induction false} LeadingZeros(k: nat, s: Bytes)
    requires AllDigits(s)
    ensures AllDigits(Zeros(k) + s) && DigitsValue(Zeros(k) + s) == DigitsValue(s)
    decreases |s|
  {
    if s == [] {
      assert Zeros(k) + s == Zeros(k);
      ZerosValue(k);
    } else {
      var t := Zeros(k) + s;
      assert t[..|t| - 1] == Zeros(k) + s[..|s| - 1];
      LeadingZeros(k, s[..|s| - 1]);
    }
  }

  /** A numeral without a leading zero has as many digits as its decade says. */
  lemma {:induction false} DigitsBounds(n: nat)
    requires n > 0
    ensures Pow10(|DigitsOf(n)| - 1) <= n < Pow10(|DigitsOf(n)|)
  {
    if n >= 10 {
      DigitsBounds(n / 10);
    }
  }

  lemma {:induction false} FourteenDigits(m: nat)
    requires Pow10(13) <= m < Pow10(14)
    ensures |DigitsOf(m)| == 14
  {
    var l := |DigitsOf(m)|;
    DigitsBounds(m);
    if l > 14 {
      Pow10Mono(14, l - 1);
    } else if l < 14 {
      Pow10Mono(l, 13);
    }
  }

  /** The whole digits, the fraction digits before trimming, and the exponent written after
      them in the "%.14g" text of d * 10^(e - 13), d the 14 digits of a significand: fixed
      notation for -4 <= e < 14 (with "0." and zeros before the digits when e < 0), and one
      digit before the point and an exponent otherwise. */
  function Layout(d: Bytes, e: int): (r: (Bytes, Bytes, int))
    requires |d| == 14 && AllDigits(d)
    ensures |r.0| >= 1 && AllDigits(r.0) && AllDigits(r.1) && AllDigits(r.0 + r.1)
    ensures DigitsValue(r.0 + r.1) == DigitsValue(d)
    ensures r.2 - |r.1| == e - 13
    ensures r.2 == (if -4 <= e < 14 then 0 else e)
  {
    if 0 <= e < 14 then
      assert d[..e + 1] + d[e + 1..] == d;
      (d[..e + 1], d[e + 1..], 0)
    else if -4 <= e < 0 then
      assert [0x30] + (Zeros(-e - 1) + d) == Zeros(-e) + d;
      LeadingZeros(-e, d);
      ([0x30], Zeros(-e - 1) + d, 0)
    else
      assert d[..1] + d[1..] == d;
      (d[..1], d[1..], e)
  }

  /** The fraction digits, then the point, are dropped when nothing is left. */
  function Joined(w: Bytes, f: Bytes): Bytes
  {
    if f == [] then w else w + [0x2E] + f
  }

  /** The exponent as printf writes it: 'e', a sign, and at least two digits. */
  function ExponentText(e: int): Bytes
  {
    [0x65, if e < 0 then 0x2D else 0x2B] + ExponentDigits(if e < 0 then -e else e)
  }

  /** The digits of an exponent's magnitude, at least two of them. */
  function ExponentDigits(a: nat): Bytes
  {
    Zeros(if a < 10 then 1 else 0) + DigitsOf(a)
  }

  /** Whole digits w, the fraction digits f without their trailing zeros, and for an e
      outside [-4, 14) the exponent. */
  function LaidOut(w: Bytes, f: Bytes, e: int): Bytes
  {
    Joined(w, TrimTrailingZeros(f)) + (if -4 <= e < 14 then [] else ExponentText(e))
  }

  /** The "%.14g" text of d * 10^(e - 13), d the 14 digits of a significand. */
  function DigitsText(d: Bytes, e: int): Bytes
    requires |d| == 14 && AllDigits(d)
  {
    var (w, f, _) := Layout(d, e);
    LaidOut(w, f, e)
  }

  /** The "%.14g" text of m * 10^(e - 13), m a 14-digit significand. */
  function SignificandText(m: nat, e: int): Bytes
    requires Pow10(13) <= m < Pow10(14)
  {
    FourteenDigits(m);
    DigitsText(DigitsOf(m), e)
  }


  /** The text lua_tolstring gives a number: "%.14g" of it. */
  function NumberText(x: real): Bytes
  {
    if x == 0.0 then [0x30]
    else
      var (m, e) := Significand(if x < 0.0 then -x else x);
      (if x < 0.0 then [0x2D] else []) + SignificandText(m, e)
  }

  // ---------------------------------------------------------------------
  // Reading a numeral (lua_tonumberx on a string)
  // ---------------------------------------------------------------------

  datatype CharClass = Space | Decimal | Hexadecimal

  predicate InClass(b: byte, c: CharClass)
  {
    match c
    case Space => IsSpace(b)
    case Decimal => IsDigit(b)
    case Hexadecimal => IsHexDigit(b)
  }

  /** The length of the run of characters of class c at the head of s. */
  function Run(s: Bytes, c: CharClass): (k: nat)
    ensures k <= |s|
  {
    if s != [] && InClass(s[0], c) then 1 + Run(s[1..], c) else 0
  }

  /** The run is the longest prefix of characters of the class. */
  lemma {:induction false} RunClass(s: Bytes, c: CharClass)
    ensures forall i :: 0 <= i < Run(s, c) ==> InClass(s[i], c)
    ensures Run(s, c) < |s| ==> !InClass(s[Run(s, c)], c)
  {
    if s != [] && InClass(s[0], c) {
      RunClass(s[1..], c);
    }
  }

  /** The exponent at the head of u and its length: 'e' or 'E' (strtod) or 'p' or 'P'
      (lua_strx2number, a power of two), an optional sign and at least one decimal digit;
      without a digit there is no exponent. */
  function ExponentPart(u: Bytes, hex: bool): (r: (int, nat))
    ensures r.1 <= |u|
  {
    if u != [] && (if hex then u[0] == 0x70 || u[0] == 0x50 else u[0] == 0x65 || u[0] == 0x45) then
      var i := if |u| >= 2 && (u[1] == 0x2D || u[1] == 0x2B) then 2 else 1;
      var v := u[i..];
      var d := Run(v, Decimal);
      if d == 0 then (0, 0)
      else
        var n: int := DigitsValue(v[..d]);
        (if i == 2 && u[1] == 0x2D then -n else n, i + d)
    else (0, 0)
  }

  /** The digits at the head of t: the whole digits, the fraction digits after an optional
      point, and the length of all that, point included. */
  function Mantissa(t: Bytes, c: CharClass): (r: (Bytes, Bytes, nat))
    ensures r.2 <= |t|
  {
    var a := Run(t, c);
    if a < |t| && t[a] == 0x2E then
      var b := Run(t[a + 1..], c);
      (t[..a], t[a + 1..][..b], a + 1 + b)
    else (t[..a], [], a)
  }

  /** Both parts of a mantissa are made of digits of the class it was read with. */
  lemma MantissaClass(t: Bytes, c: CharClass)
    ensures forall i :: 0 <= i < |Mantissa(t, c).0| ==> InClass(Mantissa(t, c).0[i], c)
    ensures forall i :: 0 <= i < |Mantissa(t, c).1| ==> InClass(Mantissa(t, c).1[i], c)
  {
    var a := Run(t, c);
    RunClass(t, c);
    if a < |t| && t[a] == 0x2E {
      RunClass(t[a + 1..], c);
    }
  }

  /** The unsigned numeral at the head of t, its value and its length: digits with an
      optional point and fraction digits, at least one digit in all, then an optional
      exponent.  A hexadecimal numeral starts with "0x" or "0X"; each of its fraction digits
      divides by 16 and its exponent is binary. */
  function Numeral(t: Bytes, hex: bool): (r: Option<(real, nat)>)
    ensures r.Some? ==> r.value.1 <= |t|
  {
    var p := if hex then 2 else 0;
    if hex && !(|t| >= 2 && t[0] == 0x30 && (t[1] == 0x78 || t[1] == 0x58)) then None
    else
      var c := if hex then Hexadecimal else Decimal;
      var (w, f, n) := Mantissa(t[p..], c);
      if |w| + |f| == 0 then None
      else
        var (ex, k) := ExponentPart(t[p + n..], hex);
        var v := if hex then BinaryShift(HexValue(w + f) as real, ex - 4 * |f|)
                 else Shift(DigitsValue(w + f) as real, ex - |f|);
        Some((v, p + n + k))
  }

  /** The numeral at the head of u, when nothing but white space follows it. */
  function WholeNumeral(u: Bytes, hex: bool): Option<real>
  {
    match Numeral(u, hex)
    case None => None
    case Some((v, k)) => if k + Run(u[k..], Space) == |u| then Some(v) else None
  }

  /** What strtod or lua_strx2number reads after white space and an optional sign, followed
      by the check that only white space is left. */
  function SignedNumeral(s: Bytes, hex: bool): Option<real>
  {
    var i := Run(s, Space);
    if i < |s| && s[i] == 0x2D then
      match WholeNumeral(s[i + 1..], hex)
      case Some(v) => Some(-v)
      case None => None
    else if i < |s| && s[i] == 0x2B then WholeNumeral(s[i + 1..], hex)
    else WholeNumeral(s[i..], hex)
  }

  /** The number a string denotes when Lua converts it (luaO_str2d): a string with 'n' or 'N'
      before its first NUL (an "inf" or a "nan") is refused; one with 'x' or 'X' is read as a
      hexadecimal numeral, any other as a decimal one. */
  function ParseNumber(s: Bytes): Option<real>
  {
    var c := UpToNul(s);
    if 0x6E in c || 0x4E in c then None else SignedNumeral(s, 0x78 in c || 0x58 in c)
  }

  // ---------------------------------------------------------------------
  // Reading back what was written
  // ---------------------------------------------------------------------

  lemma {:induction false} RunOver(u: Bytes, v: Bytes, c: CharClass)
    requires forall i :: 0 <= i < |u| ==> InClass(u[i], c)
    requires v == [] || !InClass(v[0], c)
    ensures Run(u + v, c) == |u|
    decreases |u|
  {
    if u != [] {
      assert (u + v)[1..] == u[1..] + v;
      RunOver(u[1..], v, c);
    }
  }

  /** Digits with no point after them make a mantissa without a fraction. */
  lemma {:induction false} MantissaWhole(t: Bytes, w: Bytes, tail: Bytes)
    requires t == w + tail && AllDigits(w)
    requires tail == [] || tail[0] == 0x65
    ensures Mantissa(t, Decimal) == (w, [], |w|)
  {
    RunOver(w, tail, Decimal);
    assert t[..|w|] == w;
  }

  /** Digits, a point and digits make a mantissa with a fraction. */
  lemma {:induction false} MantissaFraction(t: Bytes, w: Bytes, f: Bytes, tail: Bytes)
    requires t == w + [0x2E] + f + tail && AllDigits(w) && AllDigits(f)
    requires tail == [] || tail[0] == 0x65
    ensures Mantissa(t, Decimal) == (w, f, |w| + 1 + |f|)
  {
    assert t == w + ([0x2E] + f + tail);
    RunOver(w, [0x2E] + f + tail, Decimal);
    assert t[|w| + 1..] == f + tail;
    RunOver(f, tail, Decimal);
    assert t[..|w|] == w && (f + tail)[..|f|] == f;
  }

  lemma {:induction false} MantissaOf(t: Bytes, w: Bytes, f: Bytes, tail: Bytes)
    requires t == Joined(w, f) + tail && AllDigits(w) && AllDigits(f)
    requires tail == [] || tail[0] == 0x65
    ensures Mantissa(t, Decimal) == (w, f, |Joined(w, f)|)
  {
    if f == [] {
      MantissaWhole(t, w, tail);
    } else {
      MantissaFraction(t, w, f, tail);
    }
  }

  /** A decimal numeral made of whole digits w, fraction digits f and an exponent text reads
      as (w f) * 10^(exponent - |f|). */
  lemma {:induction false} ReadsDecimal(t: Bytes, w: Bytes, f: Bytes, tail: Bytes, ex: int,
                                        v: real)
    requires t == Joined(w, f) + tail
    requires AllDigits(w) && |w| >= 1 && AllDigits(f)
    requires ExponentPart(tail, false) == (ex, |tail|)
    requires tail == [] || tail[0] == 0x65
    requires v == Shift(DigitsValue(w + f) as real, ex - |f|)
    ensures Numeral(t, false) == Some((v, |t|))
  {
    MantissaOf(t, w, f, tail);
    assert t[|Joined(w, f)|..] == tail;
    NumeralFrom(t, w, f, |Joined(w, f)|, ex, |tail|, v, |t|);
  }

  /** A decimal numeral, from its mantissa and its exponent part. */
  lemma {:induction false} NumeralFrom(t: Bytes, w: Bytes, f: Bytes, n: nat, ex: int, k: nat,
                                       v: real, len: nat)
    requires Mantissa(t, Decimal) == (w, f, n) && |w| + |f| > 0
    requires n <= |t| && ExponentPart(t[n..], false) == (ex, k)
    requires v == Shift(DigitsValue(w + f) as real, ex - |f|) && len == n + k
    ensures Numeral(t, false) == Some((v, len))
  {
    assert t[0..] == t;
  }

  lemma {:induction false} ExponentDigitsValue(a: nat)
    ensures |ExponentDigits(a)| >= 1 && AllDigits(ExponentDigits(a))
    ensures DigitsValue(ExponentDigits(a)) == a
  {
    LeadingZeros(if a < 10 then 1 else 0, DigitsOf(a));
    DigitsRoundTrip(a);
  }

  /** 'e', a sign and digits, with nothing after them, read as the signed exponent. */
  lemma {:induction false} ExponentReads(u: Bytes, sign: byte, digits: Bytes, n: int)
    requires sign == 0x2D || sign == 0x2B
    requires |digits| >= 1 && AllDigits(digits) && u == [0x65, sign] + digits
    requires n == if sign == 0x2D then -(DigitsValue(digits) as int) else DigitsValue(digits)
    ensures ExponentPart(u, false) == (n, |u|)
  {
    assert u[2..] == digits + [];
    RunOver(digits, [], Decimal);
    assert digits[..|digits|] == digits;
  }

  lemma {:induction false} ExponentTextReads(e: int)
    ensures ExponentPart(ExponentText(e), false) == (e, |ExponentText(e)|)
  {
    ExponentDigitsValue(if e < 0 then -e else e);
    ExponentReads(ExponentText(e), if e < 0 then 0x2D else 0x2B,
                  ExponentDigits(if e < 0 then -e else e), e);
  }

  lemma {:induction false} ShiftTenfold(v: real, k: int)
    ensures Shift(10.0 * v, k - 1) == Shift(v, k)
  {
    ShiftCompose(v, 1, k - 1);
  }

  /** Trailing zeros of a fraction do not change the number it denotes. */
  lemma {:induction false} TrimmedValue(w: Bytes, f: Bytes)
    requires AllDigits(w + f)
    ensures AllDigits(w + TrimTrailingZeros(f))
    ensures Shift(DigitsValue(w + TrimTrailingZeros(f)) as real, -|TrimTrailingZeros(f)|)
      == Shift(DigitsValue(w + f) as real, -|f|)
    decreases |f|
  {
    var g := TrimTrailingZeros(f);
    assert w + g == (w + f)[..|w| + |g|];
    if f != [] && f[|f| - 1] == 0x30 {
      var f' := f[..|f| - 1];
      assert (w + f)[..|w + f| - 1] == w + f';
      TrimmedValue(w, f');
      ShiftTenfold(DigitsValue(w + f') as real, -|f'|);
    }
  }

  /** The characters "%.14g" writes for a finite number. */
  predicate TextChar(b: byte) { IsDigit(b) || b == 0x2E || b == 0x2B || b == 0x2D || b == 0x65 }

  lemma {:induction false} LaidOutChars(w: Bytes, f: Bytes, e: int)
    requires AllDigits(w) && |w| >= 1 && AllDigits(f)
    ensures forall i :: 0 <= i < |LaidOut(w, f, e)| ==> TextChar(LaidOut(w, f, e)[i])
    ensures IsDigit(LaidOut(w, f, e)[0])
  {
    var g := TrimTrailingZeros(f);
    assert AllDigits(g);
    var j := Joined(w, g);
    assert forall i :: 0 <= i < |j| ==> TextChar(j[i]);
    if !(-4 <= e < 14) {
      var x := ExponentText(e);
      assert forall i :: 0 <= i < |x| ==> TextChar(x[i]);
    }
  }

  lemma {:induction false} SignificandTextChars(m: nat, e: int)
    requires Pow10(13) <= m < Pow10(14)
    ensures forall i :: 0 <= i < |SignificandText(m, e)| ==> TextChar(SignificandText(m, e)[i])
    ensures IsDigit(SignificandText(m, e)[0])
  {
    FourteenDigits(m);
    var (w, f, _) := Layout(DigitsOf(m), e);
    LaidOutChars(w, f, e);
  }

  lemma {:induction false} NumberTextChars(x: real)
    ensures forall i :: 0 <= i < |NumberText(x)| ==> TextChar(NumberText(x)[i])
  {
    if x != 0.0 {
      var y := if x < 0.0 then -x else x;
      var (m, e) := Significand(y);
      SignificandTextChars(m, e);
    }
  }

  /** The text of a number is ASCII. */
  lemma {:induction false} NumberTextAscii(x: real)
    ensures IsAscii(NumberText(x))
  {
    NumberTextChars(x);
  }

  /** Dropping the trailing zeros of the fraction f leaves the value of w f * 10^(k - |f|)
      alone. */
  lemma {:induction false} TrimmedShift(w: Bytes, f: Bytes, k: int, n: nat, j: int)
    requires AllDigits(w + f) && DigitsValue(w + f) == n && k - |f| == j
    ensures AllDigits(w + TrimTrailingZeros(f))
    ensures Shift(DigitsValue(w + TrimTrailingZeros(f)) as real, k - |TrimTrailingZeros(f)|)
      == Shift(n as real, j)
  {
    TrimmedValue(w, f);
    var g := TrimTrailingZeros(f);
    var v := DigitsValue(w + g) as real;
    ShiftCompose(v, -|g|, k);
    ShiftCompose(n as real, -|f|, k);
  }

  lemma {:induction false} TrimmedDigits(f: Bytes)
    requires AllDigits(f)
    ensures AllDigits(TrimTrailingZeros(f))
  {
  }

  /** Fixed notation: the digits w and the trimmed fraction g, and nothing after them. */
  lemma {:induction false} FixedTextReads(t: Bytes, w: Bytes, f: Bytes, e: int, v: real)
    requires t == LaidOut(w, f, e)
    requires AllDigits(w) && |w| >= 1 && AllDigits(TrimTrailingZeros(f))
    requires -4 <= e < 14
    requires v == Shift(DigitsValue(w + TrimTrailingZeros(f)) as real, 0 - |TrimTrailingZeros(f)|)
    ensures Numeral(t, false) == Some((v, |t|))
  {
    ReadsDecimal(t, w, TrimTrailingZeros(f), [], 0, v);
  }

  /** Exponent notation: the digits w and the trimmed fraction g, then the exponent text. */
  lemma {:induction false} ScientificTextReads(t: Bytes, w: Bytes, f: Bytes, e: int, v: real)
    requires t == LaidOut(w, f, e)
    requires AllDigits(w) && |w| >= 1 && AllDigits(TrimTrailingZeros(f))
    requires !(-4 <= e < 14)
    requires v == Shift(DigitsValue(w + TrimTrailingZeros(f)) as real, e - |TrimTrailingZeros(f)|)
    ensures Numeral(t, false) == Some((v, |t|))
  {
    ExponentTextReads(e);
    ReadsDecimal(t, w, TrimTrailingZeros(f), ExponentText(e), e, v);
  }

  /** Fixed notation reads back as the digits w f, the fraction scaled by 10^-|f|. */
  lemma {:induction false} FixedReads(t: Bytes, w: Bytes, f: Bytes, e: int, n: nat, j: int)
    requires t == LaidOut(w, f, e)
    requires AllDigits(w) && |w| >= 1 && AllDigits(f)
    requires -4 <= e < 14
    requires AllDigits(w + f) && DigitsValue(w + f) == n && -|f| == j
    ensures Numeral(t, false) == Some((Shift(n as real, j), |t|))
  {
    TrimmedDigits(f);
    TrimmedShift(w, f, 0, n, j);
    FixedTextReads(t, w, f, e, Shift(n as real, j));
  }

  /** Exponent notation reads back: the exponent e scales the digits w f as well. */
  lemma {:induction false} ScientificReads(t: Bytes, w: Bytes, f: Bytes, e: int, n: nat, j: int)
    requires t == LaidOut(w, f, e)
    requires AllDigits(w) && |w| >= 1 && AllDigits(f)
    requires !(-4 <= e < 14)
    requires AllDigits(w + f) && DigitsValue(w + f) == n && e - |f| == j
    ensures Numeral(t, false) == Some((Shift(n as real, j), |t|))
  {
    TrimmedDigits(f);
    TrimmedShift(w, f, e, n, j);
    ScientificTextReads(t, w, f, e, Shift(n as real, j));
  }

  lemma {:induction false} FixedDigitsReads(t: Bytes, d: Bytes, e: int)
    requires |d| == 14 && AllDigits(d) && -4 <= e < 14
    requires t == DigitsText(d, e)
    ensures Numeral(t, false) == Some((Shift(DigitsValue(d) as real, e - 13), |t|))
  {
    var (w, f, ex) := Layout(d, e);
    FixedReads(t, w, f, e, DigitsValue(d), e - 13);
  }

  lemma {:induction false} ScientificDigitsReads(t: Bytes, d: Bytes, e: int)
    requires |d| == 14 && AllDigits(d) && !(-4 <= e < 14)
    requires t == DigitsText(d, e)
    ensures Numeral(t, false) == Some((Shift(DigitsValue(d) as real, e - 13), |t|))
  {
    var (w, f, ex) := Layout(d, e);
    assert ex == e;
    ScientificReads(t, w, f, e, DigitsValue(d), e - 13);
  }

  /** The text of a significand reads as the number it stands for. */
  lemma {:induction false} SignificandTextReads(t: Bytes, m: nat, e: int)
    requires Pow10(13) <= m < Pow10(14)
    requires t == SignificandText(m, e)
    ensures Numeral(t, false) == Some((Shift(m as real, e - 13), |t|))
  {
    FourteenDigits(m);
    DigitsRoundTrip(m);
    if -4 <= e < 14 {
      FixedDigitsReads(t, DigitsOf(m), e);
    } else {
      ScientificDigitsReads(t, DigitsOf(m), e);
    }
  }

  lemma {:induction false} SignedNumeralOf(t: Bytes, body: Bytes, neg: bool, v: real)
    requires t == (if neg then [0x2D] else []) + body
    requires body != [] && IsDigit(body[0])
    requires Numeral(body, false) == Some((v, |body|))
    ensures SignedNumeral(t, false) == Some(if neg then -v else v)
  {
    assert body[|body|..] == [];
    assert WholeNumeral(body, false) == Some(v);
    assert !IsSpace(t[0]);
    assert Run(t, Space) == 0;
    if neg {
      assert t[1..] == body;
    } else {
      assert t[0..] == body;
    }
  }

  /** A numeral of the characters "%.14g" writes, with an optional '-', reads as its value. */
  lemma {:induction false} ReadsSigned(t: Bytes, body: Bytes, neg: bool, v: real)
    requires t == (if neg then [0x2D] else []) + body
    requires forall i :: 0 <= i < |body| ==> TextChar(body[i])
    requires body != [] && IsDigit(body[0])
    requires Numeral(body, false) == Some((v, |body|))
    ensures ParseNumber(t) == Some(if neg then -v else v)
  {
    assert forall i :: 0 <= i < |t| ==> TextChar(t[i]);
    assert 0 !in t;
    UpToNulFree(t);
    assert 0x6E !in t && 0x4E !in t && 0x78 !in t && 0x58 !in t;
    SignedNumeralOf(t, body, neg, v);
  }

  /** The text of a nonzero number reads back as its significand, with its sign. */
  lemma {:induction false} SignificandReadsSigned(t: Bytes, body: Bytes, m: nat, e: int, neg: bool,
                                                  v: real)
    requires Pow10(13) <= m < Pow10(14)
    requires body == SignificandText(m, e) && t == (if neg then [0x2D] else []) + body
    requires v == Shift(m as real, e - 13)
    ensures ParseNumber(t) == Some(if neg then -v else v)
  {
    SignificandTextChars(m, e);
    SignificandTextReads(body, m, e);
    ReadsSigned(t, body, neg, v);
  }

  lemma {:induction false} ZeroTextReads(t: Bytes)
    requires t == [0x30]
    ensures ParseNumber(t) == Some(0.0)
  {
    ReadsDecimal(t, t, [], [], 0, 0.0);
    ReadsSigned(t, t, false, 0.0);
  }

  /** The text of a nonzero number, in terms of its significand. */
  lemma {:induction false} NonzeroText(x: real, y: real, m: nat, e: int)
    requires x != 0.0 && y == (if x < 0.0 then -x else x)
    requires m == Significand(y).0 && e == Significand(y).1
    ensures NumberText(x) == (if x < 0.0 then [0x2D] else []) + SignificandText(m, e)
  {
  }

  /** The rounding of a nonzero number, in terms of its significand. */
  lemma {:induction false} NonzeroRounded(x: real, y: real, m: nat, e: int, v: real)
    requires x != 0.0 && y == (if x < 0.0 then -x else x)
    requires m == Significand(y).0 && e == Significand(y).1 && v == Shift(m as real, e - 13)
    ensures Rounded(x) == if x < 0.0 then -v else v
  {
  }

  /** A string written by lua_tolstring reads back with lua_tonumberx as the number rounded to
      14 significant digits. */
  lemma {:induction false} NumberTextReadsBack(x: real)
    ensures ParseNumber(NumberText(x)) == Some(Rounded(x))
  {
    if x == 0.0 {
      ZeroTextReads(NumberText(x));
    } else {
      var y := if x < 0.0 then -x else x;
      var m, e := Significand(y).0, Significand(y).1;
      var v := Shift(m as real, e - 13);
      NonzeroText(x, y, m, e);
      NonzeroRounded(x, y, m, e, v);
      SignificandReadsSigned(NumberText(x), SignificandText(m, e), m, e, x < 0.0, v);
    }
  }

  // ---------------------------------------------------------------------
  // Whole numbers
  // ---------------------------------------------------------------------

  /** Appending k zeros to a numeral shifts its value by k places. */
  lemma {:induction false} ShiftZeros(s: Bytes, k: nat)
    ensures Shift(DigitsValue(s) as real, k) == DigitsValue(s + Zeros(k)) as real
  {
    if k > 0 {
      ShiftZeros(s, k - 1);
      ShiftStep(DigitsValue(s) as real, k - 1);
      assert (s + Zeros(k))[..|s| + k - 1] == s + Zeros(k - 1);
      assert (s + Zeros(k))[|s| + k - 1] == 0x30;
      assert DigitsValue(s + Zeros(k)) == DigitsValue(s + Zeros(k - 1)) * 10;
    } else {
      assert s + Zeros(k) == s;
    }
  }

  /** A numeral is below the power of ten of its length. */
  lemma {:induction false} DigitsValueBelow(s: Bytes)
    ensures DigitsValue(s) < Pow10(|s|)
  {
    if s != [] {
      DigitsValueBelow(s[..|s| - 1]);
    }
  }

  /** A numeral that starts with a nonzero digit is at least the power of ten of its length
      less one. */
  lemma {:induction false} DigitsValueAbove(s: Bytes)
    requires |s| >= 1 && IsDigit(s[0]) && s[0] != 0x30
    ensures Pow10(|s| - 1) <= DigitsValue(s)
  {
    if |s| > 1 {
      assert s[..|s| - 1][0] == s[0];
      DigitsValueAbove(s[..|s| - 1]);
    }
  }

  /** A numeral without a leading zero is the text of its value. */
  lemma {:induction false} DigitsOfValue(s: Bytes)
    requires |s| >= 1 && AllDigits(s) && (|s| > 1 ==> s[0] != 0x30)
    ensures DigitsOf(DigitsValue(s)) == s
  {
    if |s| > 1 {
      assert s[..|s| - 1][0] == s[0];
      DigitsValueAbove(s[..|s| - 1]);
      DigitsOfValue(s[..|s| - 1]);
      assert DigitsValue(s) / 10 == DigitsValue(s[..|s| - 1]);
      assert DigitsValue(s) % 10 == DigitValue(s[|s| - 1]);
      assert s[..|s| - 1] + [s[|s| - 1]] == s;
    }
  }

  /** Trimming the trailing zeros of zeros leaves nothing. */
  lemma {:induction false} TrimZeros(k: nat)
    ensures TrimTrailingZeros(Zeros(k)) == []
  {
    if k > 0 {
      assert Zeros(k)[..k - 1] == Zeros(k - 1);
      TrimZeros(k - 1);
    }
  }

  /** The significand of a whole number a below 10^14 is its l digits d followed by zeros,
      in decade l - 1. */
  lemma {:induction false} WholeSignificand(a: nat, d: Bytes, l: nat)
    requires 0 < a < Pow10(14) && d == DigitsOf(a) && l == |d|
    ensures l <= 14
    ensures Significand(a as real) == (DigitsValue(d + Zeros(14 - l)), l - 1)
  {
    DigitsBounds(a);
    if l > 14 {
      Pow10Mono(14, l - 1);
    }
    ScaleOfNat(l - 1);
    ScaleOfNat(l);
    DecadeIs(a as real, l - 1);
    DigitsRoundTrip(a);
    ShiftZeros(d, 14 - l);
    DigitsValueBelow(d + Zeros(14 - l));
    assert 13 - (l - 1) == 14 - l;
    SignificandIs(a as real, l - 1, Shift(a as real, 14 - l), DigitsValue(d + Zeros(14 - l)));
  }

  /** Fixed notation writes the digits d of a whole number, followed by zeros, as d. */
  lemma {:induction false} WholeDigitsText(d: Bytes, l: nat)
    requires 1 <= l <= 14 && |d| == l && AllDigits(d) && (l > 1 ==> d[0] != 0x30)
    ensures DigitsText(d + Zeros(14 - l), l - 1) == d
  {
    assert (d + Zeros(14 - l))[..l] == d && (d + Zeros(14 - l))[l..] == Zeros(14 - l);
    TrimZeros(14 - l);
  }

  /** The "%.14g" text of a whole number from 1 to 10^14 - 1 is its decimal digits. */
  lemma {:induction false} WholeSignificandText(a: nat)
    requires 0 < a < Pow10(14)
    ensures SignificandText(Significand(a as real).0, Significand(a as real).1) == DigitsOf(a)
  {
    WholeSignificand(a, DigitsOf(a), |DigitsOf(a)|);
    DigitsOfValue(DigitsOf(a) + Zeros(14 - |DigitsOf(a)|));
    WholeDigitsText(DigitsOf(a), |DigitsOf(a)|);
  }

  /** lua_tolstring writes a whole number of at most 14 digits as an integer: no point, no
      fraction and no exponent. */
  lemma {:induction false} NumberTextOfInt(n: int)
    requires -(Pow10(14) as int) < n < Pow10(14)
    ensures NumberText(n as real) == IntText(n)
  {
    if n > 0 {
      WholeSignificandText(n);
      NonzeroText(n as real, n as real, Significand(n as real).0, Significand(n as real).1);
    } else if n < 0 {
      WholeSignificandText(-n);
      NonzeroText(n as real, (-n) as real, Significand((-n) as real).0,
                  Significand((-n) as real).1);
    }
  }

  /** The text of an integer reads back as that integer, however large. */
  lemma {:induction false} ParseIntText(n: int)
    ensures ParseNumber(IntText(n)) == Some(n as real)
  {
    if n < 0 {
      SignedDigitsRead(IntText(n), -n, DigitsOf(-n), true);
    } else {
      SignedDigitsRead(IntText(n), n, DigitsOf(n), false);
    }
  }

  /** The digits of a, after an optional minus sign, read back as a or -a. */
  lemma {:induction false} SignedDigitsRead(t: Bytes, a: nat, d: Bytes, neg: bool)
    requires d == DigitsOf(a) && t == (if neg then [0x2D] else []) + d
    ensures ParseNumber(t) == Some(if neg then -(a as real) else a as real)
  {
    DigitsRoundTrip(a);
    assert d + [] == d;
    ReadsDecimal(d, d, [], [], 0, a as real);
    ReadsSigned(t, d, neg, a as real);
  }

  /** Whole numbers of at most 14 digits are not rounded. */
  lemma {:induction false} WholeNumbersExact(n: int)
    requires -(Pow10(14) as int) < n < Pow10(14)
    ensures Rounded(n as real) == n as real
  {
    NumberTextReadsBack(n as real);
    NumberTextOfInt(n);
    ParseIntText(n);
  }

  /** 10^k for k >= 14 has the significand 10^13 in decade k. */
  lemma {:induction false} PowerSignificand(k: nat)
    requires k >= 14
    ensures Significand(Scale(k)) == (Pow10(13), k)
  {
    ScaleStep(k);
    DecadeIs(Scale(k), k);
    ShiftScale(k, 13 - k);
    assert k + (13 - k) == 13;
    ScaleOfNat(13);
    SignificandIs(Scale(k), k, Shift(Scale(k), 13 - k), Pow10(13));
  }

  /** The digits of 10^k: a one and k zeros. */
  lemma {:induction false} PowerDigits(k: nat)
    ensures DigitsOf(Pow10(k)) == [0x31] + Zeros(k)
  {
    ShiftZeros([0x31], k);
    assert DigitsValue([0x31]) == 1;
    assert Scale(0) == 1.0;
    ShiftScale(0, k);
    ScaleOfNat(k);
    DigitsOfValue([0x31] + Zeros(k));
  }

  /** From 10^14 on, lua_tolstring switches to exponent notation: 10^k is written "1e+k". */
  lemma {:induction false} LargePowerText(k: nat)
    requires k >= 14
    ensures NumberText(Scale(k)) == [0x31, 0x65, 0x2B] + DigitsOf(k)
  {
    PowerSignificand(k);
    PositiveText(Scale(k), Pow10(13), k);
    OneSignificandText(Pow10(13), k);
  }

  lemma {:induction false} PositiveText(x: real, m: nat, e: int)
    requires x > 0.0 && m == Significand(x).0 && e == Significand(x).1
    ensures NumberText(x) == SignificandText(m, e)
  {
    NonzeroText(x, x, m, e);
    assert [] + SignificandText(m, e) == SignificandText(m, e);
  }

  lemma {:induction false} OneSignificandText(m: nat, k: nat)
    requires m == Pow10(13) && m < Pow10(14) && k >= 14
    ensures SignificandText(m, k) == [0x31, 0x65, 0x2B] + DigitsOf(k)
  {
    PowerDigits(13);
    OneText(DigitsOf(m), k);
  }

  /** The digits of 10^13 at decade k >= 14 are written "1e+k". */
  lemma {:induction false} OneText(d: Bytes, k: nat)
    requires d == [0x31] + Zeros(13) && k >= 14
    ensures DigitsText(d, k) == [0x31, 0x65, 0x2B] + DigitsOf(k)
  {
    assert d[..1] == [0x31] && d[1..] == Zeros(13);
    assert Layout(d, k) == ([0x31], Zeros(13), k);
    TrimZeros(13);
    assert Zeros(0) + DigitsOf(k) == DigitsOf(k);
    assert ExponentText(k) == [0x65, 0x2B] + DigitsOf(k);
  }

  // ---------------------------------------------------------------------
  // Strings lua_tonumberx accepts and refuses
  // ---------------------------------------------------------------------

  /** "0x10" is a hexadecimal numeral: 16. */
  lemma HexNumeralReads()
    ensures ParseNumber([0x30, 0x78, 0x31, 0x30]) == Some(16.0)
  {
    HexNumeralString([0x30, 0x78, 0x31, 0x30]);
  }

  lemma HexNumeralString(s: Bytes)
    requires s == [0x30, 0x78, 0x31, 0x30]
    ensures ParseNumber(s) == Some(16.0)
  {
    HexadecimalString(s);
    assert s[2..] == [0x31, 0x30] + [];
    RunOver([0x31, 0x30], [], Hexadecimal);
    assert s[2..][..2] == [0x31, 0x30];
    assert HexValue([0x31, 0x30]) == 16;
    assert Numeral(s, true) == Some((16.0, 4));
    assert s[0..] == s;
  }

  /** " 0x1p4 " is a hexadecimal numeral with a binary exponent and white space around it:
      1 * 2^4. */
  lemma BinaryExponentReads()
    ensures ParseNumber([0x20, 0x30, 0x78, 0x31, 0x70, 0x34, 0x20]) == Some(16.0)
  {
    BinaryExponentString([0x20, 0x30, 0x78, 0x31, 0x70, 0x34, 0x20]);
  }

  lemma BinaryExponentString(s: Bytes)
    requires s == [0x20, 0x30, 0x78, 0x31, 0x70, 0x34, 0x20]
    ensures ParseNumber(s) == Some(16.0)
  {
    var space: Bytes := [0x20];
    var a: Bytes := [0x20, 0x30, 0x78];
    var b: Bytes := [0x31, 0x70, 0x34, 0x20];
    assert s == a + b;
    assert 0 !in a && 0 !in b && 0x6E !in a && 0x6E !in b && 0x4E !in a && 0x4E !in b;
    assert a[2] == 0x78;
    HexadecimalString(s);
    assert s == space + s[1..];
    RunOver(space, s[1..], Space);
    BinaryExponentWhole(s[1..]);
  }

  /** A string without NUL, 'n' or 'N' that holds an 'x' is read as a hexadecimal numeral. */
  lemma HexadecimalString(s: Bytes)
    requires 0 !in s && 0x6E !in s && 0x4E !in s && 0x78 in s
    ensures ParseNumber(s) == SignedNumeral(s, true)
  {
    UpToNulFree(s);
  }

  lemma BinaryExponentWhole(u: Bytes)
    requires u == [0x30, 0x78, 0x31, 0x70, 0x34, 0x20]
    ensures WholeNumeral(u, true) == Some(16.0)
  {
    var space: Bytes := [0x20];
    BinaryExponentNumeral(u);
    assert u[5..] == space + [];
    RunOver(space, [], Space);
  }

  lemma BinaryExponentNumeral(u: Bytes)
    requires u == [0x30, 0x78, 0x31, 0x70, 0x34, 0x20]
    ensures Numeral(u, true) == Some((16.0, 5))
  {
    var one: Bytes := [0x31];
    assert u[2..] == one + [0x70, 0x34, 0x20];
    RunOver(one, [0x70, 0x34, 0x20], Hexadecimal);
    assert Mantissa(u[2..], Hexadecimal) == (one, [], 1);
    assert one + [] == one;
    assert HexValue(one) == 1;
    BinaryExponentPart(u[3..]);
    assert BinaryShift(1.0, 4) == 16.0;
  }

  lemma BinaryExponentPart(u: Bytes)
    requires u == [0x70, 0x34, 0x20]
    ensures ExponentPart(u, true) == (4, 2)
  {
    var four: Bytes := [0x34];
    assert u[1..] == four + [0x20];
    RunOver(four, [0x20], Decimal);
    assert u[1..][..1] == four;
  }

  /** "1e2" has a decimal exponent: 100. */
  lemma DecimalExponentReads()
    ensures ParseNumber([0x31, 0x65, 0x32]) == Some(100.0)
  {
    DecimalExponentString([0x31, 0x65, 0x32]);
  }

  lemma DecimalExponentString(t: Bytes)
    requires t == [0x31, 0x65, 0x32]
    ensures ParseNumber(t) == Some(100.0)
  {
    var d: Bytes := [0x32];
    assert d + [] == d;
    RunOver(d, [], Decimal);
    assert ExponentPart([0x65, 0x32], false) == (2, 2);
    assert t == Joined([0x31], []) + [0x65, 0x32];
    ReadsDecimal(t, [0x31], [], [0x65, 0x32], 2, 100.0);
    ReadsSigned(t, t, false, 100.0);
  }

  /** "1e" is refused: strtod stops before an 'e' without digits, which is then left over. */
  lemma DanglingExponentRefused()
    ensures ParseNumber([0x31, 0x65]) == None
  {
  }

  /** "inf" is refused, although strtod would read it. */
  lemma InfinityRefused()
    ensures ParseNumber([0x69, 0x6E, 0x66]) == None
  {
  }

  /** "aaa" is no numeral. */
  lemma ParseRejectsLetters()
    ensures ParseNumber([0x61, 0x61, 0x61]) == None
  {
  }
}
