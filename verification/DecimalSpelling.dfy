// Which texts the scaler of src/redstone_push.rs reads, and as what: a grammar
// of spellings, written down by itself, that the parser accepts exactly.

module DecimalSpelling {
  import opened Foundations
  import opened DecimalText

  /** An exponent as written: none, or a mark, an optional sign and digits. */
  datatype ExponentText = NoExponent | Exponent(mark: char, sign: string, digits: string)

  /** A number as written, with white space around it. */
  datatype Spelling = Spelling(left: string, whole: string, pointed: bool, fraction: string, exponent: ExponentText, right: string)

  predicate AllSpaces(s: string) {
    forall c :: c in s ==> IsSpace(c)
  }

  function ExponentValue(e: ExponentText): int {
    if e.NoExponent? then 0 else if e.sign == "-" then 0 - Value(e.digits) else Value(e.digits)
  }

  predicate WellFormedExponent(e: ExponentText) {
    e.Exponent? ==>
      && (e.mark == 'e' || e.mark == 'E')
      && (e.sign == "" || e.sign == "+" || e.sign == "-")
      && e.digits != "" && AllDigits(e.digits)
      && I32_MIN <= ExponentValue(e) <= I32_MAX
  }

  /** Digits with at most one point, not both parts empty, and the exponent. */
  predicate WellFormed(s: Spelling) {
    && AllSpaces(s.left) && AllSpaces(s.right)
    && AllDigits(s.whole) && AllDigits(s.fraction)
    && (s.whole != "" || s.fraction != "")
    && (!s.pointed ==> s.fraction == "")
    && WellFormedExponent(s.exponent)
  }

  function MantissaText(s: Spelling): string {
    if s.pointed then s.whole + ['.'] + s.fraction else s.whole
  }

  function Tail(e: ExponentText): string {
    if e.NoExponent? then "" else [e.mark] + (e.sign + e.digits)
  }

  function Core(s: Spelling): string {
    MantissaText(s) + Tail(s.exponent)
  }

  function Text(s: Spelling): string {
    s.left + Core(s) + s.right
  }

  /** What a spelling means. */
  function Reads(s: Spelling): Numeral {
    Numeral(s.whole, s.fraction, ExponentValue(s.exponent))
  }

  // ---------- trimming ----------

  lemma {:induction false} TrimStartSplits(s: string) returns (left: string)
    ensures s == left + TrimStart(s) && AllSpaces(left)
    ensures TrimStart(s) != [] ==> !IsSpace(TrimStart(s)[0])
  {
    if s != [] && IsSpace(s[0]) {
      var rest := TrimStartSplits(s[1..]);
      left := [s[0]] + rest;
      assert s == [s[0]] + s[1..];
    } else {
      left := [];
    }
  }

  lemma {:induction false} TrimEndSplits(s: string) returns (right: string)
    ensures s == TrimEnd(s) + right && AllSpaces(right)
    ensures TrimEnd(s) != [] ==> !IsSpace(TrimEnd(s)[|TrimEnd(s)| - 1])
  {
    if s != [] && IsSpace(s[|s| - 1]) {
      var rest := TrimEndSplits(s[..|s| - 1]);
      right := rest + [s[|s| - 1]];
      assert s == s[..|s| - 1] + [s[|s| - 1]];
    } else {
      right := [];
    }
  }

  lemma TrimSplits(s: string) returns (left: string, right: string)
    ensures s == left + Trim(s) + right && AllSpaces(left) && AllSpaces(right)
  {
    left := TrimStartSplits(s);
    right := TrimEndSplits(TrimStart(s));
    assert left + (Trim(s) + right) == left + Trim(s) + right;
  }

  lemma {:induction false} TrimStartDrops(left: string, s: string)
    requires AllSpaces(left) && (s != [] ==> !IsSpace(s[0]))
    ensures TrimStart(left + s) == s
  {
    if left == [] {
      assert left + s == s;
    } else {
      assert (left + s)[1..] == left[1..] + s;
      TrimStartDrops(left[1..], s);
    }
  }

  lemma {:induction false} TrimEndDrops(s: string, right: string)
    requires AllSpaces(right) && (s != [] ==> !IsSpace(s[|s| - 1]))
    ensures TrimEnd(s + right) == s
  {
    if right == [] {
      assert s + right == s;
    } else {
      var n := |right| - 1;
      assert (s + right)[..|s + right| - 1] == s + right[..n];
      TrimEndDrops(s, right[..n]);
    }
  }

  lemma TrimDrops(left: string, s: string, right: string)
    requires AllSpaces(left) && AllSpaces(right) && s != []
    requires !IsSpace(s[0]) && !IsSpace(s[|s| - 1])
    ensures Trim(left + s + right) == s
  {
    assert left + s + right == left + (s + right);
    TrimStartDrops(left, s + right);
    TrimEndDrops(s, right);
  }

  // ---------- splitting ----------

  lemma {:induction false} SplitMeans(s: string, separators: set<char>)
    ensures SplitOnce(s, separators).None? ==> forall x :: x in s ==> x !in separators
    ensures SplitOnce(s, separators).Some? ==>
              var (a, b) := SplitOnce(s, separators).value;
              |a| < |s| && s[|a|] in separators && s == a + [s[|a|]] + b && forall x :: x in a ==> x !in separators
  {
    if s != [] && s[0] !in separators {
      SplitMeans(s[1..], separators);
      assert s == [s[0]] + s[1..];
      if SplitOnce(s, separators).Some? {
        var (a, b) := SplitOnce(s[1..], separators).value;
        assert s == ([s[0]] + a) + [s[1..][|a|]] + b;
      }
    } else if s != [] {
      assert s == [] + [s[0]] + s[1..];
    }
  }

  // ---------- exponents ----------

  lemma ExponentParses(e: ExponentText)
    requires e.Exponent? && WellFormedExponent(e)
    ensures ParseI32(e.sign + e.digits) == Some(ExponentValue(e))
  {
    var t := e.sign + e.digits;
    if e.sign == "" {
      assert t == e.digits && IsDigit(t[0]) by {
        assert e.digits[0] in e.digits;
      }
    } else {
      assert t[1..] == e.digits && t[0] == e.sign[0];
    }
  }

  /** A sign and digits are the only exponents read. */
  lemma ParsedExponent(mark: char, t: string) returns (e: ExponentText)
    requires (mark == 'e' || mark == 'E') && ParseI32(t).Some?
    ensures WellFormedExponent(e) && Tail(e) == [mark] + t && ExponentValue(e) == ParseI32(t).value
  {
    var signed := t[0] == '+' || t[0] == '-';
    e := if signed then Exponent(mark, t[..1], t[1..]) else Exponent(mark, "", t);
    assert t == t[..1] + t[1..];
    assert signed ==> t[..1] == [t[0]];
    assert "" + t == t;
  }

  // ---------- the parser reads exactly the spellings ----------

  lemma MantissaPlain(s: Spelling)
    requires WellFormed(s)
    ensures MantissaText(s) != [] && forall x :: x in MantissaText(s) ==> IsDigit(x) || x == '.'
  {
  }

  lemma CoreTrims(s: Spelling)
    requires WellFormed(s)
    ensures Trim(Text(s)) == Core(s)
  {
    MantissaPlain(s);
    var core, m, tail := Core(s), MantissaText(s), Tail(s.exponent);
    assert core[0] == m[0] && m[0] in m;
    if s.exponent.NoExponent? {
      assert core == m && m[|m| - 1] in m;
    } else {
      var digits := s.exponent.digits;
      assert core[|core| - 1] == digits[|digits| - 1] && digits[|digits| - 1] in digits;
    }
    TrimDrops(s.left, core, s.right);
  }

  lemma MantissaSplits(s: Spelling)
    requires WellFormed(s)
    ensures SplitOnce(MantissaText(s), {'.'}).Or((MantissaText(s), "")) == (s.whole, s.fraction)
  {
    if s.pointed {
      SplitAt(s.whole, '.', s.fraction, {'.'});
    } else {
      NoSplit(s.whole, {'.'});
    }
  }

  /** Every spelling is read as what it means. */
  lemma SpellingParses(s: Spelling)
    requires WellFormed(s)
    ensures Parse(Text(s)) == Some(Reads(s))
  {
    CoreTrims(s);
    MantissaPlain(s);
    MantissaSplits(s);
    var m := MantissaText(s);
    if s.exponent.NoExponent? {
      assert Core(s) == m;
      NoSplit(m, {'e', 'E'});
    } else {
      assert Core(s) == m + [s.exponent.mark] + (s.exponent.sign + s.exponent.digits);
      SplitAt(m, s.exponent.mark, s.exponent.sign + s.exponent.digits, {'e', 'E'});
      ExponentParses(s.exponent);
    }
  }

  function MantissaOf(t: string): string {
    match SplitOnce(t, {'e', 'E'})
    case None => t
    case Some((m, _)) => m
  }

  function ExponentOf(t: string): Option<int> {
    match SplitOnce(t, {'e', 'E'})
    case None => Some(0)
    case Some((_, e)) => ParseI32(e)
  }

  lemma ExponentSpelled(t: string) returns (e: ExponentText)
    requires ExponentOf(t).Some?
    ensures WellFormedExponent(e) && t == MantissaOf(t) + Tail(e) && ExponentValue(e) == ExponentOf(t).value
  {
    SplitMeans(t, {'e', 'E'});
    if SplitOnce(t, {'e', 'E'}).Some? {
      var (m, rest) := SplitOnce(t, {'e', 'E'}).value;
      e := ParsedExponent(t[|m|], rest);
      assert t == m + ([t[|m|]] + rest);
    } else {
      e := NoExponent;
      assert t + "" == t;
    }
  }

  lemma MantissaSpelled(m: string) returns (pointed: bool)
    ensures var (whole, fraction) := SplitOnce(m, {'.'}).Or((m, ""));
            m == (if pointed then whole + ['.'] + fraction else whole) && (!pointed ==> fraction == "")
  {
    SplitMeans(m, {'.'});
    pointed := SplitOnce(m, {'.'}).Some?;
  }

  lemma ParseParts(text: string)
    ensures var m, e := MantissaOf(Trim(text)), ExponentOf(Trim(text));
            var (whole, fraction) := SplitOnce(m, {'.'}).Or((m, ""));
            Parse(text) ==
              if e == None || (whole == [] && fraction == []) || !AllDigits(whole) || !AllDigits(fraction) then None
              else Some(Numeral(whole, fraction, e.value))
  {
  }

  /** Nothing else is read: a parsed text is spelled so. */
  lemma ParsedIsSpelled(text: string) returns (s: Spelling)
    requires Parse(text).Some?
    ensures WellFormed(s) && Text(s) == text && Reads(s) == Parse(text).value
  {
    ParseParts(text);
    var left, right := TrimSplits(text);
    var e := ExponentSpelled(Trim(text));
    var pointed := MantissaSpelled(MantissaOf(Trim(text)));
    s := Spelling(left, Parse(text).value.whole, pointed, Parse(text).value.fraction, e, right);
  }

  /** The parser accepts exactly the well-formed spellings, each as what it means. */
  lemma ParseIff(text: string, n: Numeral)
    ensures Parse(text) == Some(n) <==> exists s :: WellFormed(s) && Text(s) == text && Reads(s) == n
  {
    if Parse(text) == Some(n) {
      var s := ParsedIsSpelled(text);
    }
    if s :| WellFormed(s) && Text(s) == text && Reads(s) == n {
      SpellingParses(s);
    }
  }

  // ---------- what scaling a spelling gives ----------

  /** An answer is the spelled number times 10^8, rounded half up. */
  lemma ScaledSpelling(s: Spelling)
    requires WellFormed(s) && ScaleValue(Text(s)).Some?
    ensures IsHalfUp(ScaleValue(Text(s)).value, TimesTenTo(Denoted(Reads(s)), 8))
  {
    SpellingParses(s);
    ScaledIsRounded(Text(s));
  }

  /** Two spellings of one number that are answered are answered alike. */
  lemma EqualSpellingsScaleEqually(a: Spelling, b: Spelling)
    requires WellFormed(a) && WellFormed(b) && SameNumber(Denoted(Reads(a)), Denoted(Reads(b)))
    requires ScaleValue(Text(a)).Some? && ScaleValue(Text(b)).Some?
    ensures ScaleValue(Text(a)) == ScaleValue(Text(b))
  {
    SpellingParses(a);
    SpellingParses(b);
    EqualNumbersScaleEqually(Text(a), Text(b));
  }

  predicate Answered(digits: nat, shift: int) {
    && digits <= U128_MAX
    && if shift >= 0 then Pow10(shift) <= U128_MAX && digits * Pow10(shift) <= U128_MAX
       else Pow10(-shift) <= U128_MAX && digits + Pow10(-shift) / 2 <= U128_MAX
  }

  predicate Fits(n: Numeral) {
    Answered(Value(n.whole + n.fraction), 8 + n.exponent - |n.fraction|)
  }

  /** Which spellings are answered: those whose digit run fits u128 and, raised
      to eight decimals, still fits, or lowered, leaves room for the half. */
  lemma AnsweredIff(s: Spelling)
    requires WellFormed(s)
    ensures ScaleValue(Text(s)).Some? <==> Fits(Reads(s))
  {
    SpellingParses(s);
    ScaleOfParsed(Text(s), Reads(s));
    NumeralAnswered(Reads(s));
  }

  lemma ScaleOfParsed(text: string, n: Numeral)
    requires Parse(text) == Some(n)
    ensures ScaleValue(text) == ScaleNumeral(n)
  {
  }

  lemma NumeralAnswered(n: Numeral)
    ensures ScaleNumeral(n).Some? <==> Fits(n)
  {
    LeadingZerosCountNothing(n.whole + n.fraction);
    DigitsAnswered(Value(n.whole + n.fraction), 8 + n.exponent - |n.fraction|);
  }

  lemma DigitsAnswered(digits: nat, shift: int)
    ensures Answered(digits, shift) <==> ToU128(digits).Some? && ScaleDigits(digits, shift).Some?
  {
    if shift < 0 && digits <= U128_MAX {
      QuotientFits(digits, Pow10(-shift));
    }
  }

  lemma QuotientFits(a: nat, b: nat)
    requires b > 0
    ensures HalfAddedQuotient(a, b) <= a + b / 2
  {
    var q := HalfAddedQuotient(a, b);
    assert q * b <= a + b / 2;
    BothTimes(1, b, q + 1);
  }

  /** A text that no spelling writes is not scaled. */
  lemma OnlySpellingsScale(text: string)
    requires forall s :: WellFormed(s) ==> Text(s) != text
    ensures ScaleValue(text) == None
  {
    if Parse(text).Some? {
      var s := ParsedIsSpelled(text);
    }
  }

  // ---------- integers with exponents ----------

  function WithExponent(n: nat, mark: char, sign: string, k: nat): Spelling {
    Spelling("", Digits(n), false, "", Exponent(mark, sign, Digits(k)), "")
  }

  lemma WholeDenotes(whole: string, exponent: int)
    ensures Denoted(Numeral(whole, "", exponent)) ==
              if exponent >= 0 then Number(Value(whole) * Pow10(exponent), 1) else Number(Value(whole), Pow10(-exponent))
  {
    assert Pow10(0) == 1 && Value("") == 0;
  }

  predicate ExponentWritten(mark: char, sign: string, k: nat) {
    (mark == 'e' || mark == 'E') && (sign == "" || sign == "+" || sign == "-") && k <= I32_MAX
  }

  function IntegerText(n: nat, mark: char, sign: string, k: nat): string {
    Digits(n) + ([mark] + (sign + Digits(k)))
  }

  function SignedExponent(sign: string, k: nat): int {
    if sign == "-" then 0 - k else k
  }

  function ExponentNumber(n: nat, sign: string, k: nat): Number {
    if sign == "-" then Number(n, Pow10(k)) else Number(n * Pow10(k), 1)
  }

  lemma IntegerSpelled(n: nat, mark: char, sign: string, k: nat)
    requires ExponentWritten(mark, sign, k)
    ensures WellFormed(WithExponent(n, mark, sign, k))
    ensures Text(WithExponent(n, mark, sign, k)) == IntegerText(n, mark, sign, k)
    ensures Reads(WithExponent(n, mark, sign, k)) == Numeral(Digits(n), "", SignedExponent(sign, k))
  {
    DigitsValue(n);
    DigitsValue(k);
    var s := WithExponent(n, mark, sign, k);
    assert Core(s) == IntegerText(n, mark, sign, k);
    assert Text(s) == Core(s);
  }

  /** n written with an exponent, in either case and with any sign, means what it
      says: n * 10^k, or n over 10^k after a minus. */
  lemma ExponentMeans(n: nat, mark: char, sign: string, k: nat)
    requires ExponentWritten(mark, sign, k)
    ensures Parse(IntegerText(n, mark, sign, k)).Some?
    ensures Denoted(Parse(IntegerText(n, mark, sign, k)).value) == ExponentNumber(n, sign, k)
  {
    IntegerSpelled(n, mark, sign, k);
    SpellingParses(WithExponent(n, mark, sign, k));
    DigitsValue(n);
    WholeDenotes(Digits(n), SignedExponent(sign, k));
    NoPower();
  }

  lemma NoPower()
    ensures Pow10(0) == 1
  {
  }

  /** So one integer scales as the number it writes with any exponent, rounded
      half up, exactly when the digits, shifted, stay in range. */
  lemma ExponentScales(n: nat, mark: char, sign: string, k: nat)
    requires ExponentWritten(mark, sign, k)
    ensures var r := ScaleValue(IntegerText(n, mark, sign, k));
            && (r.Some? <==> Answered(n, 8 + SignedExponent(sign, k)))
            && (r.Some? ==> IsHalfUp(r.value, TimesTenTo(ExponentNumber(n, sign, k), 8)))
  {
    var text := IntegerText(n, mark, sign, k);
    IntegerAnswered(n, mark, sign, k);
    if ScaleValue(text).Some? {
      ExponentMeans(n, mark, sign, k);
      ScaledIsRounded(text);
    }
  }

  lemma IntegerAnswered(n: nat, mark: char, sign: string, k: nat)
    requires ExponentWritten(mark, sign, k)
    ensures ScaleValue(IntegerText(n, mark, sign, k)).Some? <==> Answered(n, 8 + SignedExponent(sign, k))
  {
    var numeral := Numeral(Digits(n), "", SignedExponent(sign, k));
    IntegerSpelled(n, mark, sign, k);
    SpellingParses(WithExponent(n, mark, sign, k));
    ScaleOfParsed(IntegerText(n, mark, sign, k), numeral);
    NumeralAnswered(numeral);
    DigitsValue(n);
    assert Digits(n) + "" == Digits(n);
  }

  lemma SevenPlaces()
    ensures Pow10(1) == 10 && Pow10(7) == 10_000_000 && Pow10(8) == 100_000_000
  {
    assert Pow10(4) == 10_000;
  }

  lemma OnlyHalfUp(r: int, num: nat, den: nat, q: nat)
    requires IsHalfUp(r, Number(num, den)) && num == q * den && den > 0
    ensures r == q
  {
    ExactIsHalfUp(q, Number(num, den));
    HalfUpUnique(r, Number(num, den), q, Number(num, den));
  }

  /** Two known values: a ten-millionth, and two and a half. */
  lemma KnownExponents()
    ensures IntegerText(1, 'e', "-", 7) == "1e-7" && ScaleValue("1e-7") == Some(10)
    ensures IntegerText(25, 'E', "-", 1) == "25E-1" && ScaleValue("25E-1") == Some(250_000_000)
  {
    SevenPlaces();
    KnownTexts();
    ExponentScales(1, 'e', "-", 7);
    OnlyHalfUp(ScaleValue("1e-7").value, 100_000_000, 10_000_000, 10);
    ExponentScales(25, 'E', "-", 1);
    OnlyHalfUp(ScaleValue("25E-1").value, 2_500_000_000, 10, 250_000_000);
  }

  lemma KnownTexts()
    ensures IntegerText(1, 'e', "-", 7) == "1e-7" && IntegerText(25, 'E', "-", 1) == "25E-1"
  {
    assert Digits(1) == "1" && Digits(7) == "7" && Digits(25) == "25";
  }
}
