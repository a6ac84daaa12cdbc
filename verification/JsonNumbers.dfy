/** Finite numbers as JSON.stringify prints them: Number::toString of ECMA-262, section 6.1.6.1.20.

    A nonzero finite number is given by its sign, its shortest decimal digits and the place of the
    decimal point before them; zero has no sign in print. */
module JsonNumbers {
  import opened Utf16

  datatype Decimals = Zero | Decimal(negative: bool, digits: Text, point: int)

  predicate AllDigits(s: Text) {
    forall i: nat | i < |s| :: 0x30 <= s[i] <= 0x39
  }

  /** No digit is superfluous. */
  predicate Shortest(x: Decimals) {
    x.Decimal? ==> x.digits != [] && AllDigits(x.digits) && x.digits[0] != ZERO && x.digits[|x.digits| - 1] != ZERO
  }

  type Number = x: Decimals | Shortest(x) witness Zero

  const ZERO: Unit := 0x30
  const PLUS: Unit := 0x2b
  const MINUS: Unit := 0x2d
  const DOT: Unit := 0x2e
  const EXPONENT: Unit := 0x65

  function Zeros(n: nat): (s: Text)
    ensures |s| == n && AllDigits(s)
  {
    if n == 0 then [] else [ZERO] + Zeros(n - 1)
  }

  function NatText(n: nat): (s: Text)
    ensures s != [] && AllDigits(s)
  {
    if n < 10 then [ZERO + n] else NatText(n / 10) + [ZERO + n % 10]
  }

  function Mantissa(digits: Text): Text
    requires digits != []
  {
    if |digits| == 1 then digits else digits[..1] + [DOT] + digits[1..]
  }

  function Magnitude(digits: Text, point: int): (s: Text)
    requires digits != [] && AllDigits(digits)
    ensures s != [] && 0x30 <= s[0] <= 0x39
  {
    if |digits| <= point <= 21 then digits + Zeros(point - |digits|)
    else if 0 < point <= 21 then digits[..point] + [DOT] + digits[point..]
    else if -6 < point <= 0 then [ZERO] + [DOT] + (Zeros(-point) + digits)
    else Mantissa(digits) + [EXPONENT] + ExponentText(point - 1)
  }

  function ExponentText(e: int): Text {
    if e < 0 then [MINUS] + NatText(-e) else [PLUS] + NatText(e)
  }

  function NumberText(x: Number): (s: Text)
    ensures s != [] && (s[0] == MINUS || 0x30 <= s[0] <= 0x39)
  {
    match x
    case Zero => [ZERO]
    case Decimal(negative, digits, point) =>
      if negative then [MINUS] + Magnitude(digits, point) else Magnitude(digits, point)
  }

  // ---------- reading a number ----------

  function IndexOf(s: Text, u: Unit): (i: nat)
    ensures i <= |s|
  {
    if s == [] || s[0] == u then 0 else 1 + IndexOf(s[1..], u)
  }

  function ReadNat(s: Text): int {
    if s == [] then 0 else 10 * ReadNat(s[..|s| - 1]) + (s[|s| - 1] - ZERO)
  }

  function ReadExponent(s: Text): int {
    if s == [] then 0 else if s[0] == MINUS then -ReadNat(s[1..]) else ReadNat(s[1..])
  }

  /** Drops superfluous zeros; what is not made of digits reads as zero. */
  function Normal(negative: bool, digits: Text, point: int): Number
    decreases |digits|
  {
    if digits == [] || !AllDigits(digits) then Zero
    else if digits[0] == ZERO then Normal(negative, digits[1..], point - 1)
    else if digits[|digits| - 1] == ZERO then Normal(negative, digits[..|digits| - 1], point)
    else Decimal(negative, digits, point)
  }

  function ReadMantissa(negative: bool, s: Text, exponent: int): Number {
    var dot := IndexOf(s, DOT);
    if dot < |s| then Normal(negative, s[..dot] + s[dot + 1..], dot + exponent)
    else Normal(negative, s, |s| + exponent)
  }

  function ReadMagnitude(negative: bool, s: Text): Number {
    var e := IndexOf(s, EXPONENT);
    if e < |s| then ReadMantissa(negative, s[..e], ReadExponent(s[e + 1..])) else ReadMantissa(negative, s, 0)
  }

  function ReadNumber(s: Text): Number {
    if s != [] && s[0] == MINUS then ReadMagnitude(true, s[1..]) else ReadMagnitude(false, s)
  }

  lemma {:induction false} IndexSplits(a: Text, u: Unit, b: Text)
    requires u !in a
    ensures IndexOf(a + [u] + b, u) == |a| && (a + [u] + b)[..|a|] == a && (a + [u] + b)[|a| + 1..] == b
  {
    var s := a + [u] + b;
    if a != [] {
      assert s[0] == a[0] && a[0] in a;
      assert s[1..] == a[1..] + [u] + b;
      IndexSplits(a[1..], u, b);
    }
  }

  lemma {:induction false} IndexAbsent(s: Text, u: Unit)
    requires u !in s
    ensures IndexOf(s, u) == |s|
  {
    if s != [] {
      assert s[0] in s;
      IndexAbsent(s[1..], u);
    }
  }

  lemma {:induction false} NatReadsBack(n: nat)
    ensures ReadNat(NatText(n)) == n
  {
    if n >= 10 {
      NatReadsBack(n / 10);
      assert NatText(n)[..|NatText(n)| - 1] == NatText(n / 10);
    } else {
      assert NatText(n)[..0] == [];
    }
  }

  lemma ExponentReadsBack(e: int)
    ensures ReadExponent(ExponentText(e)) == e
  {
    var n: nat := if e < 0 then -e else e;
    NatReadsBack(n);
    assert ExponentText(e)[1..] == NatText(n);
  }

  lemma DropLeading(negative: bool, rest: Text, point: int)
    requires AllDigits(rest)
    ensures Normal(negative, [ZERO] + rest, point) == Normal(negative, rest, point - 1)
  {
    assert ([ZERO] + rest)[1..] == rest;
  }

  lemma {:induction false} NormalDropsLeading(negative: bool, n: nat, digits: Text, point: int)
    requires AllDigits(digits)
    ensures Normal(negative, Zeros(n) + digits, point) == Normal(negative, digits, point - n)
    decreases n
  {
    if n == 0 {
      assert Zeros(0) + digits == digits;
    } else {
      assert Zeros(n) + digits == [ZERO] + (Zeros(n - 1) + digits);
      DropLeading(negative, Zeros(n - 1) + digits, point);
      NormalDropsLeading(negative, n - 1, digits, point - 1);
    }
  }

  lemma DropTrailing(negative: bool, front: Text, point: int)
    requires front != [] && AllDigits(front) && front[0] != ZERO
    ensures Normal(negative, front + [ZERO], point) == Normal(negative, front, point)
  {
    assert (front + [ZERO])[..|front|] == front && (front + [ZERO])[0] == front[0];
  }

  lemma {:induction false} ZerosEnd(n: nat)
    requires n > 0
    ensures Zeros(n) == Zeros(n - 1) + [ZERO]
  {
    if n > 1 {
      ZerosEnd(n - 1);
    }
  }

  lemma {:induction false} NormalDropsTrailing(negative: bool, digits: Text, n: nat, point: int)
    requires digits != [] && AllDigits(digits) && digits[0] != ZERO
    ensures Normal(negative, digits + Zeros(n), point) == Normal(negative, digits, point)
    decreases n
  {
    if n == 0 {
      assert digits + Zeros(0) == digits;
    } else {
      ZerosEnd(n);
      assert digits + Zeros(n) == (digits + Zeros(n - 1)) + [ZERO];
      DropTrailing(negative, digits + Zeros(n - 1), point);
      NormalDropsTrailing(negative, digits, n - 1, point);
    }
  }

  lemma DigitsOnly(s: Text)
    requires AllDigits(s)
    ensures DOT !in s && EXPONENT !in s
  {
  }

  lemma DottedReads(negative: bool, whole: Text, fraction: Text, exponent: int)
    requires AllDigits(whole)
    ensures ReadMantissa(negative, whole + [DOT] + fraction, exponent)
      == Normal(negative, whole + fraction, |whole| + exponent)
  {
    DigitsOnly(whole);
    IndexSplits(whole, DOT, fraction);
  }

  lemma PlainReads(negative: bool, digits: Text, exponent: int)
    requires AllDigits(digits)
    ensures ReadMantissa(negative, digits, exponent) == Normal(negative, digits, |digits| + exponent)
  {
    DigitsOnly(digits);
    IndexAbsent(digits, DOT);
  }

  lemma MantissaReads(negative: bool, digits: Text, exponent: int)
    requires digits != [] && AllDigits(digits)
    ensures ReadMantissa(negative, Mantissa(digits), exponent) == Normal(negative, digits, 1 + exponent)
    ensures EXPONENT !in Mantissa(digits)
  {
    DigitsOnly(digits);
    if |digits| == 1 {
      PlainReads(negative, digits, exponent);
    } else {
      DottedReads(negative, digits[..1], digits[1..], exponent);
      assert digits[..1] + digits[1..] == digits;
    }
  }

  lemma NoExponentReads(negative: bool, s: Text)
    requires EXPONENT !in s
    ensures ReadMagnitude(negative, s) == ReadMantissa(negative, s, 0)
  {
    IndexAbsent(s, EXPONENT);
  }

  lemma DottedHasNoExponent(whole: Text, fraction: Text)
    requires AllDigits(whole) && AllDigits(fraction)
    ensures EXPONENT !in whole + [DOT] + fraction
  {
  }

  lemma NormalIsItself(negative: bool, digits: Text, point: int)
    requires Shortest(Decimal(negative, digits, point))
    ensures Normal(negative, digits, point) == Decimal(negative, digits, point)
  {
  }

  lemma DigitsRead(negative: bool, digits: Text)
    requires AllDigits(digits)
    ensures ReadMagnitude(negative, digits) == Normal(negative, digits, |digits|)
  {
    DigitsOnly(digits);
    NoExponentReads(negative, digits);
    PlainReads(negative, digits, 0);
  }

  lemma PointRead(negative: bool, whole: Text, fraction: Text)
    requires AllDigits(whole) && AllDigits(fraction)
    ensures ReadMagnitude(negative, whole + [DOT] + fraction) == Normal(negative, whole + fraction, |whole|)
  {
    DottedHasNoExponent(whole, fraction);
    NoExponentReads(negative, whole + [DOT] + fraction);
    DottedReads(negative, whole, fraction, 0);
  }

  lemma PaddedIsItself(negative: bool, digits: Text, n: nat, point: int)
    requires Shortest(Decimal(negative, digits, point))
    ensures Normal(negative, digits + Zeros(n), point) == Decimal(negative, digits, point)
  {
    NormalDropsTrailing(negative, digits, n, point);
    NormalIsItself(negative, digits, point);
  }

  lemma IntegerReadsBack(negative: bool, digits: Text, zeros: Text, point: int)
    requires Shortest(Decimal(negative, digits, point)) && |digits| <= point && zeros == Zeros(point - |digits|)
    ensures ReadMagnitude(negative, digits + zeros) == Decimal(negative, digits, point)
  {
    PaddedIsItself(negative, digits, point - |digits|, point);
    DigitsRead(negative, digits + zeros);
  }

  lemma FractionReadsBack(negative: bool, digits: Text, point: int)
    requires Shortest(Decimal(negative, digits, point)) && 0 < point < |digits|
    ensures ReadMagnitude(negative, digits[..point] + [DOT] + digits[point..]) == Decimal(negative, digits, point)
  {
    PointRead(negative, digits[..point], digits[point..]);
    assert digits[..point] + digits[point..] == digits;
    NormalIsItself(negative, digits, point);
  }

  lemma SmallReadsBack(negative: bool, digits: Text, point: int)
    requires Shortest(Decimal(negative, digits, point)) && point <= 0
    ensures ReadMagnitude(negative, [ZERO] + [DOT] + (Zeros(-point) + digits)) == Decimal(negative, digits, point)
  {
    PointRead(negative, [ZERO], Zeros(-point) + digits);
    DropLeading(negative, Zeros(-point) + digits, 1);
    NormalDropsLeading(negative, -point, digits, 0);
    NormalIsItself(negative, digits, point);
  }

  lemma ScientificReadsBack(negative: bool, digits: Text, point: int)
    requires Shortest(Decimal(negative, digits, point))
    ensures ReadMagnitude(negative, Mantissa(digits) + [EXPONENT] + ExponentText(point - 1))
      == Decimal(negative, digits, point)
  {
    MantissaReads(negative, digits, point - 1);
    IndexSplits(Mantissa(digits), EXPONENT, ExponentText(point - 1));
    ExponentReadsBack(point - 1);
  }

  lemma MagnitudeReadsBack(negative: bool, digits: Text, point: int)
    requires Shortest(Decimal(negative, digits, point))
    ensures ReadMagnitude(negative, Magnitude(digits, point)) == Decimal(negative, digits, point)
  {
    if |digits| <= point <= 21 {
      IntegerReadsBack(negative, digits, Zeros(point - |digits|), point);
    } else if 0 < point <= 21 {
      FractionReadsBack(negative, digits, point);
    } else if -6 < point <= 0 {
      SmallReadsBack(negative, digits, point);
    } else {
      ScientificReadsBack(negative, digits, point);
    }
  }

  /** Every finite number is read back from its print, so different numbers print differently. */
  lemma NumberReadsBack(x: Number)
    ensures ReadNumber(NumberText(x)) == x
  {
    match x
    case Zero =>
      NoExponentReads(false, [ZERO]);
      PlainReads(false, [ZERO], 0);
      assert [ZERO][1..] == [];
    case Decimal(negative, digits, point) =>
      MagnitudeReadsBack(negative, digits, point);
      if negative {
        assert NumberText(x)[1..] == Magnitude(digits, point);
      }
  }

  // ---------- which notation is printed ----------

  predicate AllZeros(s: Text) {
    forall i: nat | i < |s| :: s[i] == 0x30
  }

  lemma {:induction false} ZerosAreZeros(n: nat)
    ensures AllZeros(Zeros(n))
  {
    if n > 0 {
      ZerosAreZeros(n - 1);
    }
  }

  lemma {:induction false} NatTextIsCanonical(n: nat)
    ensures n > 0 ==> NatText(n)[0] != 0x30
  {
    if n >= 10 {
      NatTextIsCanonical(n / 10);
    }
  }

  /** The integer notation: the digits, filled up with zeros to the decimal point. */
  ghost predicate IntegerForm(s: Text, digits: Text, point: int) {
    |digits| <= point == |s| && s[..|digits|] == digits && AllZeros(s[|digits|..])
  }

  /** The decimal notation: max(1, point) digits, a dot, and the digits behind the point. */
  ghost predicate DecimalForm(s: Text, digits: Text, point: int) {
    if point > 0 then
      && point < |digits| && |s| == |digits| + 1
      && s[..point] == digits[..point] && s[point] == 0x2e && s[point + 1..] == digits[point..]
    else
      && |s| == 2 - point + |digits| && s[0] == 0x30 && s[1] == 0x2e
      && AllZeros(s[2..2 - point]) && s[2 - point..] == digits
  }

  /** The scientific notation: one digit, a dot and the other digits if there are any, the letter e,
      the sign of the exponent, and its decimal digits without a leading zero. */
  ghost predicate ScientificForm(s: Text, digits: Text, point: int) {
    var mantissa := if |digits| == 1 then 1 else |digits| + 1;
    && digits != [] && |s| > mantissa + 2
    && s[0] == digits[0] && (|digits| > 1 ==> s[1] == 0x2e && s[2..mantissa] == digits[1..])
    && s[mantissa] == 0x65 && s[mantissa + 1] == (if point < 1 then 0x2d else 0x2b)
    && AllDigits(s[mantissa + 2..]) && s[mantissa + 2] != 0x30
    && ReadNat(s[mantissa + 2..]) == (if point < 1 then 1 - point else point - 1)
  }

  lemma IntegerHasForm(digits: Text, point: int)
    requires digits != [] && AllDigits(digits) && |digits| <= point
    ensures IntegerForm(digits + Zeros(point - |digits|), digits, point)
  {
    var s := digits + Zeros(point - |digits|);
    ZerosAreZeros(point - |digits|);
    assert s[..|digits|] == digits && s[|digits|..] == Zeros(point - |digits|);
  }

  lemma SmallHasForm(digits: Text, point: int)
    requires digits != [] && AllDigits(digits) && point <= 0
    ensures DecimalForm([ZERO] + [DOT] + (Zeros(-point) + digits), digits, point)
  {
    var s := [ZERO] + [DOT] + (Zeros(-point) + digits);
    ZerosAreZeros(-point);
    assert s[2..2 - point] == Zeros(-point) && s[2 - point..] == digits;
  }

  lemma MantissaHasForm(digits: Text)
    requires digits != []
    ensures var m := Mantissa(digits);
      && |m| == (if |digits| == 1 then 1 else |digits| + 1) && m[0] == digits[0]
      && (|digits| > 1 ==> m[1] == 0x2e && m[2..] == digits[1..])
  {
  }

  lemma ExponentHasForm(e: int)
    requires e != 0
    ensures var t := ExponentText(e);
      && |t| >= 2 && t[0] == (if e < 0 then 0x2d else 0x2b) && AllDigits(t[1..]) && t[1] != 0x30
      && ReadNat(t[1..]) == (if e < 0 then -e else e)
  {
    var n: nat := if e < 0 then -e else e;
    NatTextIsCanonical(n);
    NatReadsBack(n);
    assert ExponentText(e)[1..] == NatText(n);
  }

  lemma JoinedByExponent(mantissa: Text, exponent: Text)
    ensures var s := mantissa + [EXPONENT] + exponent;
      && s[..|mantissa|] == mantissa && s[|mantissa|] == EXPONENT && s[|mantissa| + 1..] == exponent
  {
  }

  lemma ScientificHasForm(digits: Text, point: int)
    requires digits != [] && AllDigits(digits) && point != 1
    ensures ScientificForm(Mantissa(digits) + [EXPONENT] + ExponentText(point - 1), digits, point)
  {
    MantissaHasForm(digits);
    ExponentHasForm(point - 1);
    JoinedByExponent(Mantissa(digits), ExponentText(point - 1));
    PartsHaveForm(Mantissa(digits) + [EXPONENT] + ExponentText(point - 1),
      Mantissa(digits), ExponentText(point - 1), digits, point);
  }

  lemma PartsHaveForm(s: Text, m: Text, t: Text, digits: Text, point: int)
    requires digits != [] && |m| == (if |digits| == 1 then 1 else |digits| + 1) && m[0] == digits[0]
    requires |digits| > 1 ==> m[1] == 0x2e && m[2..] == digits[1..]
    requires |t| >= 2 && t[0] == (if point < 1 then 0x2d else 0x2b) && AllDigits(t[1..]) && t[1] != 0x30
    requires ReadNat(t[1..]) == (if point < 1 then 1 - point else point - 1)
    requires |s| == |m| + 1 + |t| && s[..|m|] == m && s[|m|] == 0x65 && s[|m| + 1..] == t
    ensures ScientificForm(s, digits, point)
  {
    assert s[|m| + 2..] == t[1..] && s[|m| + 1] == t[0] && s[|m| + 2] == t[1];
    assert s[0] == m[0];
    if |digits| > 1 {
      assert s[1] == m[1] && s[2..|m|] == m[2..];
    }
  }

  /** The notation that is due for the place of the decimal point. */
  ghost predicate HasNotation(s: Text, digits: Text, point: int)
    requires digits != []
  {
    && (|digits| <= point <= 21 ==> IntegerForm(s, digits, point))
    && (-6 < point <= 21 && point < |digits| ==> DecimalForm(s, digits, point))
    && (point <= -6 || point > 21 ==> ScientificForm(s, digits, point))
  }

  lemma MagnitudeHasNotation(digits: Text, point: int)
    requires digits != [] && AllDigits(digits)
    ensures HasNotation(Magnitude(digits, point), digits, point)
  {
    if |digits| <= point <= 21 {
      IntegerHasForm(digits, point);
    } else if -6 < point <= 0 {
      SmallHasForm(digits, point);
    } else if !(0 < point <= 21) {
      ScientificHasForm(digits, point);
    }
  }

  lemma SignIsFirst(negative: bool, magnitude: Text)
    requires magnitude != [] && magnitude[0] != 0x2d
    ensures var s := if negative then [MINUS] + magnitude else magnitude;
      (s[0] == 0x2d <==> negative) && (if negative then s[1..] else s) == magnitude
  {
  }

  /** Which of the three notations is printed depends on the decimal point alone, and the notation
      fixes every unit of the print. Zero prints as a single zero. */
  lemma NotationExactly(x: Number)
    ensures x.Zero? ==> NumberText(x) == [0x30]
    ensures x.Decimal? ==>
      && (NumberText(x)[0] == 0x2d <==> x.negative)
      && HasNotation(if x.negative then NumberText(x)[1..] else NumberText(x), x.digits, x.point)
  {
    if x.Decimal? {
      SignIsFirst(x.negative, Magnitude(x.digits, x.point));
      MagnitudeHasNotation(x.digits, x.point);
    }
  }

  // ---------- where a number ends ----------

  predicate NumberUnit(u: Unit) {
    0x30 <= u <= 0x39 || u == PLUS || u == MINUS || u == DOT || u == EXPONENT
  }

  predicate NumberUnits(s: Text) {
    forall i: nat | i < |s| :: NumberUnit(s[i])
  }

  /** The longest run of units that a number can be made of. */
  function RunLength(t: Text): (n: nat)
    ensures n <= |t| && (t != [] && NumberUnit(t[0]) ==> n > 0)
  {
    if t == [] || !NumberUnit(t[0]) then 0 else 1 + RunLength(t[1..])
  }

  predicate Ends(x: Text) {
    x == [] || !NumberUnit(x[0])
  }

  lemma {:induction false} RunIsTheNumber(s: Text, x: Text)
    requires NumberUnits(s) && Ends(x)
    ensures RunLength(s + x) == |s| && (s + x)[..|s|] == s && (s + x)[|s|..] == x
  {
    if s == [] {
      assert s + x == x;
    } else {
      assert (s + x)[1..] == s[1..] + x;
      RunIsTheNumber(s[1..], x);
    }
  }

  lemma JoinUnits(a: Text, b: Text)
    requires NumberUnits(a) && NumberUnits(b)
    ensures NumberUnits(a + b)
  {
  }

  lemma MantissaUnits(digits: Text)
    requires digits != [] && AllDigits(digits)
    ensures NumberUnits(Mantissa(digits))
  {
  }

  lemma MagnitudeUnits(digits: Text, point: int)
    requires digits != [] && AllDigits(digits)
    ensures NumberUnits(Magnitude(digits, point))
  {
    if |digits| <= point <= 21 {
      JoinUnits(digits, Zeros(point - |digits|));
    } else if 0 < point <= 21 {
      JoinUnits(digits[..point], [DOT]);
      JoinUnits(digits[..point] + [DOT], digits[point..]);
    } else if -6 < point <= 0 {
      JoinUnits(Zeros(-point), digits);
      JoinUnits([ZERO] + [DOT], Zeros(-point) + digits);
    } else {
      MantissaUnits(digits);
      JoinUnits(Mantissa(digits), [EXPONENT]);
      JoinUnits(Mantissa(digits) + [EXPONENT], ExponentText(point - 1));
    }
  }

  lemma NumberTextUnits(x: Number)
    ensures NumberUnits(NumberText(x))
  {
    if x.Decimal? {
      MagnitudeUnits(x.digits, x.point);
      JoinUnits([MINUS], Magnitude(x.digits, x.point));
    }
  }

  lemma NumberIsPlain(x: Number)
    ensures WellFormed(NumberText(x))
  {
    NumberTextUnits(x);
    PlainIsWellFormed(NumberText(x));
  }
}
