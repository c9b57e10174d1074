/**
 Text in UTF-16 code units, and how a finite number is printed: the rules of Number::toString (section
 6.1.6.1.20 of ECMA-262).  A number is given by its shortest decimal digits and the place of its point.
 */
module JsonNumber {
  type Unit = x: int | 0 <= x < 0x1_0000

  type Text = seq<Unit>

  const MINUS: Unit := 0x2D
  const PLUS: Unit := 0x2B
  const POINT: Unit := 0x2E
  const ZERO: Unit := 0x30
  const LOWER_E: Unit := 0x65

  /** `Decimal(negative, digits, point)` is the number 0.digits times ten to the `point`. */
  datatype Number = NonFinite | Zero(negative: bool) | Decimal(negative: bool, digits: Text, point: int)
  {
    predicate Valid()
    {
      Decimal? ==> Shortest(digits)
    }
  }

  predicate IsDigit(c: Unit) { ZERO <= c <= 0x39 }

  predicate Digits(t: Text) { forall i | 0 <= i < |t| :: IsDigit(t[i]) }

  /** No zero at either end. */
  predicate Shortest(digits: Text)
  {
    Digits(digits) && digits != [] && digits[0] != ZERO && digits[|digits| - 1] != ZERO
  }

  /** The two zeros are the same JSON number. */
  predicate SameNumber(a: Number, b: Number) { a == b || (a.Zero? && b.Zero?) }

  function Zeros(k: nat): (t: Text)
    ensures |t| == k && Digits(t)
  {
    seq(k, i => ZERO)
  }

  function NatText(n: nat): (t: Text)
    ensures Digits(t) && t != []
  {
    if n < 10 then [ZERO + n] else NatText(n / 10) + [ZERO + n % 10]
  }

  function SignedText(n: int): Text
  {
    if n < 0 then [MINUS] + NatText(-n) else [PLUS] + NatText(n)
  }

  function MagnitudeText(digits: Text, point: int): (t: Text)
    requires digits != []
  {
    if |digits| <= point <= 21 then digits + Zeros(point - |digits|)
    else if 0 < point <= 21 then digits[..point] + [POINT] + digits[point..]
    else if -6 < point <= 0 then [ZERO, POINT] + Zeros(-point) + digits
    else if |digits| == 1 then digits + [LOWER_E] + SignedText(point - 1)
    else digits[..1] + [POINT] + digits[1..] + [LOWER_E] + SignedText(point - 1)
  }

  function NumberText(n: Number): Text
    requires n.Valid() && !n.NonFinite?
  {
    match n
    case Zero(_) => [ZERO]
    case Decimal(negative, digits, point) =>
      if negative then [MINUS] + MagnitudeText(digits, point) else MagnitudeText(digits, point)
  }

  // ---------- Reading the printed form back ----------

  function Find(t: Text, c: Unit): (i: nat)
    ensures i <= |t|
  {
    if t == [] || t[0] == c then 0 else 1 + Find(t[1..], c)
  }

  function NatValue(t: Text): int
  {
    if t == [] then 0 else NatValue(t[..|t| - 1]) * 10 + (t[|t| - 1] as int - 0x30)
  }

  function SignedValue(t: Text): int
  {
    if t == [] then 0
    else if t[0] == 0x2D then -NatValue(t[1..])
    else if t[0] == 0x2B then NatValue(t[1..])
    else NatValue(t)
  }

  function LeadingZeros(t: Text): (k: nat)
    ensures k <= |t|
  {
    if t != [] && t[0] == 0x30 then 1 + LeadingZeros(t[1..]) else 0
  }

  function DropZeros(t: Text): Text
  {
    if t != [] && t[|t| - 1] == 0x30 then DropZeros(t[..|t| - 1]) else t
  }

  datatype Magnitude = Magnitude(digits: Text, point: int)

  function Assemble(whole: Text, fraction: Text, exponent: int): Magnitude
  {
    var raw := whole + fraction;
    var z := LeadingZeros(raw);
    Magnitude(DropZeros(raw[z..]), |whole| + exponent - z)
  }

  function ReadMantissa(t: Text, exponent: int): Magnitude
  {
    var p := Find(t, 0x2E);
    Assemble(t[..p], if p == |t| then [] else t[p + 1..], exponent)
  }

  /** The digits and point of an unsigned number in any of the printed forms. */
  function ReadMagnitude(t: Text): Magnitude
  {
    var e := Find(t, 0x65);
    ReadMantissa(t[..e], if e == |t| then 0 else SignedValue(t[e + 1..]))
  }

  lemma {:induction false} FindAt(a: Text, c: Unit, b: Text)
    requires forall i | 0 <= i < |a| :: a[i] != c
    ensures Find(a + [c] + b, c) == |a|
  {
    if a != [] {
      FindAt(a[1..], c, b);
      assert (a + [c] + b)[1..] == a[1..] + [c] + b;
    }
  }

  lemma {:induction false} FindNone(a: Text, c: Unit)
    requires forall i | 0 <= i < |a| :: a[i] != c
    ensures Find(a, c) == |a|
  {
    if a != [] { FindNone(a[1..], c); }
  }

  lemma {:induction false} NatRoundTrip(n: nat)
    ensures NatValue(NatText(n)) == n
  {
    if n >= 10 {
      NatRoundTrip(n / 10);
      assert NatText(n)[..|NatText(n)| - 1] == NatText(n / 10);
    } else {
      assert NatText(n)[..0] == [];
    }
  }

  lemma SignedRoundTrip(n: int)
    ensures SignedValue(SignedText(n)) == n
  {
    NatRoundTrip(if n < 0 then -n else n);
    assert SignedText(n)[1..] == NatText(if n < 0 then -n else n);
  }

  lemma {:induction false} LeadingZerosOf(a: nat, rest: Text)
    requires rest != [] && rest[0] != ZERO
    ensures LeadingZeros(Zeros(a) + rest) == a
  {
    if a > 0 {
      LeadingZerosOf(a - 1, rest);
      assert (Zeros(a) + rest)[1..] == Zeros(a - 1) + rest;
    } else {
      assert Zeros(0) + rest == rest;
    }
  }

  lemma {:induction false} DropZerosOf(digits: Text, b: nat)
    requires digits != [] && digits[|digits| - 1] != ZERO
    ensures DropZeros(digits + Zeros(b)) == digits
  {
    if b > 0 {
      DropZerosOf(digits, b - 1);
      assert (digits + Zeros(b))[..|digits| + b - 1] == digits + Zeros(b - 1);
    } else {
      assert digits + Zeros(0) == digits;
    }
  }

  lemma AssembleOf(whole: Text, fraction: Text, exponent: int, a: nat, digits: Text, b: nat)
    requires digits != [] && digits[0] != ZERO && digits[|digits| - 1] != ZERO
    requires whole + fraction == Zeros(a) + digits + Zeros(b)
    ensures Assemble(whole, fraction, exponent) == Magnitude(digits, |whole| + exponent - a)
  {
    LeadingZerosOf(a, digits + Zeros(b));
    DropZerosOf(digits, b);
    assert Zeros(a) + digits + Zeros(b) == Zeros(a) + (digits + Zeros(b));
    assert (Zeros(a) + (digits + Zeros(b)))[a..] == digits + Zeros(b);
  }

  lemma MantissaOf(whole: Text, fraction: Text, exponent: int)
    requires Digits(whole) && Digits(fraction)
    ensures ReadMantissa(whole + [POINT] + fraction, exponent) == Assemble(whole, fraction, exponent)
    ensures ReadMantissa(whole, exponent) == Assemble(whole, [], exponent)
  {
    FindAt(whole, POINT, fraction);
    FindNone(whole, POINT);
    var t := whole + [POINT] + fraction;
    assert t[..|whole|] == whole && t[|whole| + 1..] == fraction;
    assert whole[..|whole|] == whole;
  }

  lemma MagnitudeOf(mantissa: Text, point: int)
    requires forall i | 0 <= i < |mantissa| :: mantissa[i] != LOWER_E
    ensures ReadMagnitude(mantissa + [LOWER_E] + SignedText(point)) == ReadMantissa(mantissa, point)
    ensures ReadMagnitude(mantissa) == ReadMantissa(mantissa, 0)
  {
    FindAt(mantissa, LOWER_E, SignedText(point));
    FindNone(mantissa, LOWER_E);
    SignedRoundTrip(point);
    var t := mantissa + [LOWER_E] + SignedText(point);
    assert t[..|mantissa|] == mantissa && t[|mantissa| + 1..] == SignedText(point);
    assert mantissa[..|mantissa|] == mantissa;
  }

  lemma WholeForm(digits: Text, k: nat)
    requires Shortest(digits)
    ensures ReadMagnitude(digits + Zeros(k)) == Magnitude(digits, |digits| + k)
  {
    var whole := digits + Zeros(k);
    hide ReadMagnitude, ReadMantissa, Assemble;
    MagnitudeOf(whole, 0);
    MantissaOf(whole, [], 0);
    assert whole + [] == Zeros(0) + digits + Zeros(k);
    AssembleOf(whole, [], 0, 0, digits, k);
  }

  lemma PointForm(whole: Text, fraction: Text)
    requires Shortest(whole + fraction) && Digits(whole) && Digits(fraction)
    ensures ReadMagnitude(whole + [POINT] + fraction) == Magnitude(whole + fraction, |whole|)
  {
    hide ReadMagnitude, ReadMantissa, Assemble;
    MagnitudeOf(whole + [POINT] + fraction, 0);
    MantissaOf(whole, fraction, 0);
    assert whole + fraction == Zeros(0) + (whole + fraction) + Zeros(0);
    AssembleOf(whole, fraction, 0, 0, whole + fraction, 0);
  }

  lemma FractionForm(digits: Text, k: nat)
    requires Shortest(digits)
    ensures ReadMagnitude([ZERO, POINT] + Zeros(k) + digits) == Magnitude(digits, 0 - k)
  {
    hide ReadMagnitude, ReadMantissa, Assemble;
    var fraction := Zeros(k) + digits;
    assert [ZERO, POINT] + Zeros(k) + digits == [ZERO] + [POINT] + fraction;
    MagnitudeOf([ZERO] + [POINT] + fraction, 0);
    MantissaOf([ZERO], fraction, 0);
    assert [ZERO] + fraction == Zeros(1 + k) + digits + Zeros(0);
    AssembleOf([ZERO], fraction, 0, 1 + k, digits, 0);
  }

  lemma BareExponentForm(digits: Text, e: int)
    requires Shortest(digits)
    ensures ReadMagnitude(digits + [LOWER_E] + SignedText(e)) == Magnitude(digits, |digits| + e)
  {
    hide ReadMagnitude, ReadMantissa, Assemble, SignedText;
    MagnitudeOf(digits, e);
    MantissaOf(digits, [], e);
    assert digits + [] == Zeros(0) + digits + Zeros(0);
    AssembleOf(digits, [], e, 0, digits, 0);
  }

  lemma PointExponentForm(whole: Text, fraction: Text, e: int)
    requires Shortest(whole + fraction) && Digits(whole) && Digits(fraction)
    ensures ReadMagnitude(whole + [POINT] + fraction + [LOWER_E] + SignedText(e))
            == Magnitude(whole + fraction, |whole| + e)
  {
    hide ReadMagnitude, ReadMantissa, Assemble, SignedText;
    MagnitudeOf(whole + [POINT] + fraction, e);
    MantissaOf(whole, fraction, e);
    assert whole + fraction == Zeros(0) + (whole + fraction) + Zeros(0);
    AssembleOf(whole, fraction, e, 0, whole + fraction, 0);
  }

  /** Reading recovers the digits and the point from each of the printed forms. */
  lemma MagnitudeRoundTrip(digits: Text, point: int)
    requires Shortest(digits)
    ensures ReadMagnitude(MagnitudeText(digits, point)) == Magnitude(digits, point)
  {
    hide ReadMagnitude, SignedText;
    if |digits| <= point <= 21 {
      WholeForm(digits, point - |digits|);
    } else if 0 < point <= 21 {
      assert digits[..point] + digits[point..] == digits;
      PointForm(digits[..point], digits[point..]);
    } else if -6 < point <= 0 {
      FractionForm(digits, -point);
    } else if |digits| == 1 {
      BareExponentForm(digits, point - 1);
    } else {
      assert digits[..1] + digits[1..] == digits;
      PointExponentForm(digits[..1], digits[1..], point - 1);
    }
  }

  predicate NumberUnit(c: Unit) { IsDigit(c) || c in {MINUS, PLUS, POINT, LOWER_E} }

  predicate AllNumberUnits(t: Text) { forall i | 0 <= i < |t| :: NumberUnit(t[i]) }

  lemma JoinUnits(a: Text, b: Text)
    requires AllNumberUnits(a) && AllNumberUnits(b)
    ensures AllNumberUnits(a + b)
  {
  }

  lemma MagnitudeUnits(digits: Text, point: int)
    requires Shortest(digits)
    ensures AllNumberUnits(MagnitudeText(digits, point))
  {
    hide SignedText;
    SignedUnits(point - 1);
    if |digits| <= point <= 21 {
      JoinUnits(digits, Zeros(point - |digits|));
    } else if 0 < point <= 21 {
      JoinUnits(digits[..point], [POINT]);
      JoinUnits(digits[..point] + [POINT], digits[point..]);
    } else if -6 < point <= 0 {
      JoinUnits([ZERO, POINT], Zeros(-point));
      JoinUnits([ZERO, POINT] + Zeros(-point), digits);
    } else {
      hide AllNumberUnits;
      var mantissa := if |digits| == 1 then digits else digits[..1] + [POINT] + digits[1..];
      MantissaUnits(digits);
      JoinUnits(mantissa, [LOWER_E]);
      JoinUnits(mantissa + [LOWER_E], SignedText(point - 1));
    }
  }

  lemma MantissaUnits(digits: Text)
    requires Shortest(digits)
    ensures AllNumberUnits(digits) && AllNumberUnits(digits[..1] + [POINT] + digits[1..]) && AllNumberUnits([LOWER_E])
  {
    JoinUnits(digits[..1], [POINT]);
    JoinUnits(digits[..1] + [POINT], digits[1..]);
  }

  lemma SignedUnits(e: int)
    ensures AllNumberUnits(SignedText(e))
  {
    JoinUnits([MINUS], NatText(if e < 0 then -e else e));
    JoinUnits([PLUS], NatText(if e < 0 then -e else e));
  }

  lemma NumberUnits(n: Number)
    requires n.Valid() && !n.NonFinite?
    ensures var t := NumberText(n); t != [] && (t[0] == MINUS || IsDigit(t[0])) && AllNumberUnits(t)
  {
    if n.Decimal? {
      MagnitudeUnits(n.digits, n.point);
      MagnitudeUnsigned(n);
      hide MagnitudeText;
      JoinUnits([MINUS], MagnitudeText(n.digits, n.point));
    }
  }

  /** Printing tells numbers apart, and prints the two zeros alike. */
  lemma NumberTextExact(a: Number, b: Number)
    requires a.Valid() && b.Valid() && !a.NonFinite? && !b.NonFinite?
    ensures NumberText(a) == NumberText(b) <==> SameNumber(a, b)
  {
    hide ReadMagnitude;
    if a.Decimal? { MagnitudeRoundTrip(a.digits, a.point); }
    if b.Decimal? { MagnitudeRoundTrip(b.digits, b.point); }
    ZeroReads();
    if a.Decimal? { MagnitudeUnsigned(a); }
    if b.Decimal? { MagnitudeUnsigned(b); }
    hide MagnitudeText;
    if NumberText(a) == NumberText(b) && a.Decimal? && b.Decimal? && a.negative {
      assert NumberText(a)[1..] == MagnitudeText(a.digits, a.point);
      assert NumberText(b)[1..] == MagnitudeText(b.digits, b.point);
    }
  }

  lemma ZeroReads()
    ensures ReadMagnitude([ZERO]).digits == []
  {
    FindNone([ZERO], LOWER_E);
    FindNone([ZERO], POINT);
    assert [ZERO][..1] == [ZERO];
    assert [ZERO] + [] == [ZERO];
    assert LeadingZeros([ZERO]) == 1;
  }

  lemma MagnitudeUnsigned(n: Number)
    requires n.Valid() && n.Decimal?
    ensures var t := MagnitudeText(n.digits, n.point); t != [] && IsDigit(t[0])
  {
  }
}
