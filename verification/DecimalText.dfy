// `scale_value` of src/redstone_push.rs: decimal text to an integer at eight
// decimals, and what it means: the denoted number, rounded half up.

module DecimalText {
  import opened Foundations

  const DECIMALS: int := 8
  const I32_MAX: int := 0x7FFF_FFFF
  const I32_MIN: int := -0x8000_0000

  // ---------- syntax ----------

  /** Unicode White_Space, which `str::trim` removes. */
  predicate IsSpace(c: char) {
    || '\t' <= c <= '\r' || c == ' ' || c == '\U{0085}' || c == '\U{00A0}' || c == '\U{1680}'
    || '\U{2000}' <= c <= '\U{200A}' || c == '\U{2028}' || c == '\U{2029}' || c == '\U{202F}'
    || c == '\U{205F}' || c == '\U{3000}'
  }

  function TrimStart(s: string): string {
    if s != [] && IsSpace(s[0]) then TrimStart(s[1..]) else s
  }

  function TrimEnd(s: string): string {
    if s != [] && IsSpace(s[|s| - 1]) then TrimEnd(s[..|s| - 1]) else s
  }

  function Trim(s: string): string {
    TrimEnd(TrimStart(s))
  }

  predicate IsDigit(c: char) {
    '0' <= c <= '9'
  }

  /** Ten digits and 25 white space characters. */
  lemma CharacterClasses(c: char)
    ensures IsDigit(c) <==> c in "0123456789"
    ensures IsSpace(c) <==>
              c in ['\U{0009}', '\U{000A}', '\U{000B}', '\U{000C}', '\U{000D}', '\U{0020}', '\U{0085}', '\U{00A0}', '\U{1680}',
                    '\U{2000}', '\U{2001}', '\U{2002}', '\U{2003}', '\U{2004}', '\U{2005}', '\U{2006}', '\U{2007}', '\U{2008}',
                    '\U{2009}', '\U{200A}', '\U{2028}', '\U{2029}', '\U{202F}', '\U{205F}', '\U{3000}']
  {
  }

  predicate AllDigits(s: string) {
    forall c :: c in s ==> IsDigit(c)
  }

  /** The text around the first separator, if there is one. */
  function SplitOnce(s: string, separators: set<char>): Option<(string, string)> {
    if s == [] then None
    else if s[0] in separators then Some(([], s[1..]))
    else
      match SplitOnce(s[1..], separators)
      case None => None
      case Some((left, right)) => Some(([s[0]] + left, right))
  }

  function ParseI32(s: string): Option<int> {
    var signed := s != [] && (s[0] == '+' || s[0] == '-');
    var digits := if signed then s[1..] else s;
    if digits == [] || !AllDigits(digits) then None else
    var n: int := if s[0] == '-' then 0 - Value(digits) else Value(digits);
    if I32_MIN <= n <= I32_MAX then Some(n) else None
  }

  datatype Numeral = Numeral(whole: string, fraction: string, exponent: int)

  /** The accepted texts: digits with at most one point, not both parts empty,
      and an optional exponent. */
  function Parse(text: string): Option<Numeral> {
    var t := Trim(text);
    var (mantissa, exponent) :=
      match SplitOnce(t, {'e', 'E'})
      case None => (t, Some(0))
      case Some((m, e)) => (m, ParseI32(e));
    if exponent == None then None else
    var (whole, fraction) := SplitOnce(mantissa, {'.'}).Or((mantissa, ""));
    if whole == [] && fraction == [] then None
    else if !AllDigits(whole) || !AllDigits(fraction) then None
    else Some(Numeral(whole, fraction, exponent.value))
  }

  // ---------- the scaler ----------

  function DigitOf(c: char): nat {
    if IsDigit(c) then c as int - '0' as int else 0
  }

  /** Positional value of a run of digits. */
  function Value(s: string): nat {
    if s == [] then 0 else 10 * Value(s[..|s| - 1]) + DigitOf(s[|s| - 1])
  }

  function TrimZeros(s: string): string {
    if s != [] && s[0] == '0' then TrimZeros(s[1..]) else s
  }

  function Pow10(k: nat): nat
    ensures Pow10(k) > 0
  {
    if k == 0 then 1 else 10 * Pow10(k - 1)
  }

  function Times(a: nat, b: nat): nat {
    a * b
  }

  /** The quotient, after half the divisor is added. */
  function HalfAddedQuotient(a: nat, b: nat): nat
    requires b > 0
  {
    (a + b / 2) / b
  }

  function ScaleDigits(digits: u128, shift: int): Option<u128> {
    if shift >= 0 then
      if Pow10(shift) > U128_MAX then None else ToU128(Times(digits, Pow10(shift)))
    else
      var divisor := Pow10(-shift);
      if divisor > U128_MAX || digits + divisor / 2 > U128_MAX then None
      else ToU128(HalfAddedQuotient(digits, divisor))
  }

  function ScaleNumeral(n: Numeral): Option<u128> {
    match ToU128(Value(TrimZeros(n.whole + n.fraction)))
    case None => None
    case Some(digits) => ScaleDigits(digits, DECIMALS + n.exponent - |n.fraction|)
  }

  function ScaleValue(text: string): Option<u128> {
    match Parse(text)
    case None => None
    case Some(n) => ScaleNumeral(n)
  }

  // ---------- meaning ----------

  /** An exact fraction num/den. */
  datatype Number = Number(num: nat, den: nat)

  /** The number a numeral denotes: (whole + fraction / 10^|fraction|) * 10^exponent. */
  function Denoted(n: Numeral): (x: Number)
    ensures x.den > 0
  {
    var f := Pow10(|n.fraction|);
    var mantissa := Value(n.whole) * f + Value(n.fraction);
    if n.exponent >= 0 then Number(mantissa * Pow10(n.exponent), f)
    else Number(mantissa, f * Pow10(-n.exponent))
  }

  predicate SameNumber(x: Number, y: Number) {
    x.num * y.den == y.num * x.den
  }

  /** r is num/den rounded to the nearest integer, halves upward. */
  predicate IsHalfUp(r: int, x: Number) {
    (2 * r - 1) * x.den <= 2 * x.num < (2 * r + 1) * x.den
  }

  function TimesTenTo(x: Number, k: nat): (y: Number)
    ensures x.den > 0 ==> y.den > 0
  {
    Number(x.num * Pow10(k), x.den)
  }

  lemma {:induction false} Pow10Add(a: nat, b: nat)
    ensures Pow10(a + b) == Pow10(a) * Pow10(b)
  {
    if a > 0 {
      Pow10Add(a - 1, b);
      assert Pow10(a) * Pow10(b) == 10 * (Pow10(a - 1) * Pow10(b));
    }
  }

  lemma {:induction false} ValueConcat(a: string, b: string)
    ensures Value(a + b) == Value(a) * Pow10(|b|) + Value(b)
  {
    if b == [] {
      assert a + b == a;
    } else {
      var init := b[..|b| - 1];
      ValueConcat(a, init);
      assert (a + b)[..|a + b| - 1] == a + init;
      assert Value(a) * Pow10(|b|) == 10 * (Value(a) * Pow10(|init|));
    }
  }

  lemma {:induction false} LeadingZerosCountNothing(s: string)
    ensures Value(TrimZeros(s)) == Value(s)
  {
    if s != [] && s[0] == '0' {
      LeadingZerosCountNothing(s[1..]);
      ValueConcat(s[..1], s[1..]);
      assert s == s[..1] + s[1..];
      assert Value(s[..1]) == 0;
    }
  }

  /** A common factor changes no rounding. */
  lemma HalfUpCancels(r: int, a: nat, b: nat, m: nat)
    requires m > 0
    requires IsHalfUp(r, Number(a, b))
    ensures IsHalfUp(r, Number(a * m, b * m))
  {
    Scaled((2 * r - 1) * b, 2 * a, m);
    Scaled(2 * a, (2 * r + 1) * b, m);
    Regroup(2 * r - 1, b, m);
    Regroup(2 * r + 1, b, m);
    Regroup(2, a, m);
  }

  /** Two fractions of one number round to one integer. */
  lemma HalfUpUnique(r: int, x: Number, r': int, y: Number)
    requires x.den > 0 && y.den > 0 && SameNumber(x, y)
    requires IsHalfUp(r, x) && IsHalfUp(r', y)
    ensures r == r'
  {
    HalfUpCancels(r, x.num, x.den, y.den);
    HalfUpCancels(r', y.num, y.den, x.den);
    var b := x.den * y.den;
    assert b > 0;
    assert (2 * r - 1) * b < (2 * r' + 1) * b;
    assert (2 * r' - 1) * b < (2 * r + 1) * b;
    Scaled(2 * r - 1, 2 * r' + 1, b);
    Scaled(2 * r' - 1, 2 * r + 1, b);
  }

  /** Adding half an even divisor before dividing rounds half up. */
  lemma HalfDivisorRounds(a: nat, half: nat)
    requires half > 0
    ensures IsHalfUp((a + half) / (2 * half), Number(a, 2 * half))
  {
    var b := 2 * half;
    var q := (a + half) / b;
    assert q * b <= a + half < q * b + b;
    assert (2 * q - 1) * b == 2 * (q * b) - b;
    assert (2 * q + 1) * b == 2 * (q * b) + b;
  }

  lemma ExactIsHalfUp(r: nat, x: Number)
    requires x.den > 0 && r * x.den == x.num
    ensures IsHalfUp(r, x)
  {
    assert (2 * r - 1) * x.den == 2 * (r * x.den) - x.den;
    assert (2 * r + 1) * x.den == 2 * (r * x.den) + x.den;
  }

  /** A numeral's fraction over the scaler's digit run. */
  lemma DenotedByDigits(n: Numeral, up: nat, down: nat)
    requires up - down == n.exponent && (up == 0 || down == 0)
    ensures Denoted(n) == Number(Value(TrimZeros(n.whole + n.fraction)) * Pow10(up), Pow10(|n.fraction| + down))
  {
    LeadingZerosCountNothing(n.whole + n.fraction);
    ValueConcat(n.whole, n.fraction);
    Pow10Add(|n.fraction|, down);
  }

  /** The digit run D and the shift express the scaled number: over the common
      factor m it is D * 10^shift, or D / 10^-shift. */
  lemma DigitsExpress(n: Numeral) returns (m: nat)
    ensures m > 0
    ensures var d := Value(TrimZeros(n.whole + n.fraction));
            var shift := DECIMALS + n.exponent - |n.fraction|;
            var x := TimesTenTo(Denoted(n), 8);
            && x.num == d * m
            && (shift >= 0 ==> Pow10(shift) * x.den == m)
            && (shift < 0 ==> x.den == Pow10(-shift) * m)
  {
    var up := if n.exponent >= 0 then n.exponent else 0;
    var down: nat := if n.exponent >= 0 then 0 else -n.exponent;
    DenotedByDigits(n, up, down);
    m := Pow10(up + 8);
    Pow10Add(up, 8);
    Regroup(Value(TrimZeros(n.whole + n.fraction)), Pow10(up), Pow10(8));
    var shift := DECIMALS + n.exponent - |n.fraction|;
    if shift >= 0 {
      Pow10Add(shift, |n.fraction| + down);
    } else {
      Pow10Add(-shift, up + 8);
    }
  }

  /** Whenever a text is scaled, the answer is the number it denotes times
      10^8, rounded half up, exactly. */
  lemma ScaledIsRounded(text: string)
    requires ScaleValue(text).Some?
    ensures IsHalfUp(ScaleValue(text).value, TimesTenTo(Denoted(Parse(text).value), 8))
  {
    NumeralIsRounded(Parse(text).value);
  }

  lemma NumeralIsRounded(n: Numeral)
    requires ScaleNumeral(n).Some?
    ensures IsHalfUp(ScaleNumeral(n).value, TimesTenTo(Denoted(n), 8))
  {
    var d := Value(TrimZeros(n.whole + n.fraction));
    var shift := DECIMALS + n.exponent - |n.fraction|;
    var m := DigitsExpress(n);
    if shift >= 0 {
      RaisedDigitsRound(d, shift, TimesTenTo(Denoted(n), 8), m);
    } else {
      LoweredDigitsRound(d, -shift, TimesTenTo(Denoted(n), 8), m);
    }
  }

  lemma RaisedDigitsRound(d: u128, shift: nat, x: Number, m: nat)
    requires ScaleDigits(d, shift).Some?
    requires x.den > 0 && x.num == d * m && Pow10(shift) * x.den == m
    ensures IsHalfUp(ScaleDigits(d, shift).value, x)
  {
    Regroup(d, Pow10(shift), x.den);
    ExactIsHalfUp(d * Pow10(shift), x);
  }

  lemma LoweredDigitsRound(d: u128, down: nat, x: Number, m: nat)
    requires down > 0 && ScaleDigits(d, 0 - down).Some?
    requires m > 0 && x.num == d * m && x.den == Pow10(down) * m
    ensures IsHalfUp(ScaleDigits(d, 0 - down).value, x)
  {
    var half := 5 * Pow10(down - 1);
    HalfOf(Pow10(down), half);
    HalfDivisorRounds(d, half);
    HalfUpCancels((d + half) / Pow10(down), d, Pow10(down), m);
  }

  lemma HalfOf(n: nat, half: nat)
    requires n == 2 * half
    ensures n / 2 == half
  {
  }

  /** Texts denoting one number scale to one answer, however they spell it. */
  lemma EqualNumbersScaleEqually(a: string, b: string)
    requires ScaleValue(a).Some? && ScaleValue(b).Some?
    requires SameNumber(Denoted(Parse(a).value), Denoted(Parse(b).value))
    ensures ScaleValue(a) == ScaleValue(b)
  {
    ScaledIsRounded(a);
    ScaledIsRounded(b);
    var x, y := Denoted(Parse(a).value), Denoted(Parse(b).value);
    var p := Pow10(8);
    Regroup(x.num, p, y.den);
    Regroup(y.num, p, x.den);
    HalfUpUnique(ScaleValue(a).value, TimesTenTo(x, 8), ScaleValue(b).value, TimesTenTo(y, 8));
  }

  /** A zero more in front or behind spells the same number. */
  lemma PaddingDenotesTheSame(n: Numeral)
    ensures SameNumber(Denoted(n.(whole := "0" + n.whole)), Denoted(n))
    ensures SameNumber(Denoted(n.(fraction := n.fraction + "0")), Denoted(n))
  {
    LeadingZero(n.whole);
    TrailingZero(n);
  }

  lemma LeadingZero(s: string)
    ensures Value("0" + s) == Value(s)
  {
    ValueConcat("0", s);
    assert Value("0") == 0;
  }

  lemma TrailingZero(n: Numeral)
    ensures SameNumber(Denoted(n.(fraction := n.fraction + "0")), Denoted(n))
  {
    var f := Pow10(|n.fraction|);
    var mantissa := Value(n.whole) * f + Value(n.fraction);
    ValueConcat(n.fraction, "0");
    assert Value("0") == 0 && Pow10(1) == 10;
    Regroup(Value(n.whole), 10, f);
    TenfoldIsSame(mantissa, f, n.exponent);
  }

  lemma TenfoldIsSame(a: nat, f: nat, exponent: int)
    ensures exponent >= 0 ==> SameNumber(Number(10 * a * Pow10(exponent), 10 * f), Number(a * Pow10(exponent), f))
    ensures exponent < 0 ==> SameNumber(Number(10 * a, 10 * f * Pow10(-exponent)), Number(a, f * Pow10(-exponent)))
  {
    if exponent >= 0 {
      var p := Pow10(exponent);
      assert 10 * a * p * f == (a * p) * (10 * f);
    } else {
      var p := Pow10(-exponent);
      assert 10 * a * (f * p) == a * (10 * f * p);
    }
  }

  /** Moving the point one digit is changing the exponent by one. */
  lemma PointMovesWithExponent(n: Numeral)
    requires n.fraction != []
    ensures SameNumber(Denoted(Numeral(n.whole + n.fraction[..1], n.fraction[1..], n.exponent - 1)), Denoted(n))
  {
    var d, rest := n.fraction[..1], n.fraction[1..];
    assert n.fraction == d + rest;
    assert n.whole + n.fraction == (n.whole + d) + rest;
    var moved := Numeral(n.whole + d, rest, n.exponent - 1);
    if n.exponent > 0 {
      DenotedByDigits(n, n.exponent, 0);
      DenotedByDigits(moved, n.exponent - 1, 0);
      TenfoldBothSides(Value(TrimZeros(n.whole + n.fraction)), Pow10(n.exponent - 1), Pow10(|rest|));
    } else {
      DenotedByDigits(n, 0, -n.exponent);
      DenotedByDigits(moved, 0, 1 - n.exponent);
    }
  }

  lemma TenfoldBothSides(a: nat, p: nat, f: nat)
    ensures a * p * (10 * f) == a * (10 * p) * f
  {
    Regroup(a, 10 * p, f);
    Regroup(a, p, 10 * f);
    Regroup(10, p, f);
    Regroup(p, 10, f);
  }

  // ---------- printing at eight decimals ----------

  function DigitChar(d: nat): char
    requires d < 10
  {
    ('0' as int + d) as char
  }

  function Digits(n: nat): string {
    if n < 10 then [DigitChar(n)] else Digits(n / 10) + [DigitChar(n % 10)]
  }

  function Padded(n: nat, width: nat): string {
    if width == 0 then "" else Padded(n / 10, width - 1) + [DigitChar(n % 10)]
  }

  /** n hundred-millionths, as text. */
  function Print(n: nat): string {
    Digits(n / Pow10(8)) + "." + Padded(n % Pow10(8), 8)
  }

  lemma {:induction false} DigitsValue(n: nat)
    ensures Value(Digits(n)) == n && AllDigits(Digits(n)) && Digits(n) != []
  {
    if n >= 10 {
      DigitsValue(n / 10);
      assert Digits(n)[..|Digits(n)| - 1] == Digits(n / 10);
    }
  }

  lemma {:induction false} PaddedValue(n: nat, width: nat)
    requires n < Pow10(width)
    ensures Value(Padded(n, width)) == n && AllDigits(Padded(n, width)) && |Padded(n, width)| == width
  {
    if width > 0 {
      PaddedValue(n / 10, width - 1);
      assert Padded(n, width)[..width - 1] == Padded(n / 10, width - 1);
    }
  }

  lemma {:induction false} SplitAt(a: string, c: char, b: string, separators: set<char>)
    requires c in separators
    requires forall x :: x in a ==> x !in separators
    ensures SplitOnce(a + [c] + b, separators) == Some((a, b))
  {
    if a == [] {
      assert a + [c] + b == [c] + b;
    } else {
      SplitAt(a[1..], c, b, separators);
      assert (a + [c] + b)[1..] == a[1..] + [c] + b;
      assert [a[0]] + a[1..] == a;
    }
  }

  lemma {:induction false} NoSplit(s: string, separators: set<char>)
    requires forall x :: x in s ==> x !in separators
    ensures SplitOnce(s, separators) == None
  {
    if s != [] {
      NoSplit(s[1..], separators);
    }
  }

  lemma {:induction false} NothingToTrim(s: string)
    requires forall x :: x in s ==> !IsSpace(x)
    ensures Trim(s) == s
  {
  }

  lemma PlainParses(whole: string, fraction: string)
    requires AllDigits(whole) && AllDigits(fraction)
    requires whole != [] || fraction != []
    ensures Parse(whole + "." + fraction) == Some(Numeral(whole, fraction, 0))
  {
    var t := whole + "." + fraction;
    assert forall x :: x in t ==> IsDigit(x) || x == '.';
    NothingToTrim(t);
    NoSplit(t, {'e', 'E'});
    SplitAt(whole, '.', fraction, {'.'});
  }

  /** No plain text with at most eight decimals is refused whose scaled value
      fits. */
  lemma PlainTextAnswers(whole: string, fraction: string)
    requires AllDigits(whole) && AllDigits(fraction)
    requires whole != [] || fraction != []
    requires |fraction| <= 8
    requires Value(whole + fraction) * Pow10(8 - |fraction|) <= U128_MAX
    ensures ScaleValue(whole + "." + fraction) == Some(Value(whole + fraction) * Pow10(8 - |fraction|))
  {
    PlainParses(whole, fraction);
    LeadingZerosCountNothing(whole + fraction);
    RaisedDigitsFit(Value(whole + fraction), 8 - |fraction|);
  }

  lemma RaisedDigitsFit(digits: nat, shift: nat)
    requires shift <= 8 && digits * Pow10(shift) <= U128_MAX
    ensures digits <= U128_MAX && ScaleDigits(digits, shift) == Some(digits * Pow10(shift))
  {
    SmallPower(shift);
    if digits > 0 {
      BothTimes(1, Pow10(shift), digits);
    }
  }

  lemma {:induction false} SmallPower(k: nat)
    requires k <= 8
    ensures Pow10(k) < 0x1_0000_0000
    decreases 8 - k
  {
    if k == 8 {
      assert Pow10(2) == 100;
      assert Pow10(5) == 100_000;
    } else {
      SmallPower(k + 1);
    }
  }

  lemma PrintedDigits(high: nat, low: nat, width: nat)
    requires low < Pow10(width)
    ensures Value(Digits(high) + Padded(low, width)) == high * Pow10(width) + low
    ensures AllDigits(Digits(high)) && AllDigits(Padded(low, width))
    ensures Digits(high) != [] && |Padded(low, width)| == width
  {
    DigitsValue(high);
    PaddedValue(low, width);
    ValueConcat(Digits(high), Padded(low, width));
  }

  lemma EightPlaces()
    ensures Pow10(0) == 1 && Pow10(8) == 100_000_000
  {
    assert Pow10(2) == 100;
    assert Pow10(5) == 100_000;
  }

  lemma PrintedRunScales(high: nat, low: nat)
    requires low < 100_000_000 && high * 100_000_000 + low <= U128_MAX
    ensures ScaleValue(Digits(high) + "." + Padded(low, 8)) == Some(high * 100_000_000 + low)
  {
    EightPlaces();
    PrintedDigits(high, low, 8);
    PlainTextAnswers(Digits(high), Padded(low, 8));
  }

  /** Printing at eight decimals and scaling gives the number back. */
  lemma PrintedScalesBack(n: u128)
    ensures ScaleValue(Print(n)) == Some(n)
  {
    EightPlaces();
    PrintedRunScales(n / 100_000_000, n % 100_000_000);
  }
}
