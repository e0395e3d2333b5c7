/**
 The gcd and lcm of rationals, and what makes them the greatest common divisor and
 the least common multiple: divisibility with an integer quotient.
 */
module RationalGcd {
  import opened Integers
  import opened CommonFactor
  import opened RationalValue
  import opened RationalCancel
  import opened Rational

  /** `y` is an integer times `x`. */
  ghost predicate DividesQ(x: Q, y: Q) {
    Divides(x.num * y.den, y.num * x.den)
  }

  function GcdQ(a: Q, b: Q): Q
    requires a.den != 0 && b.den != 0
  {
    LcmIsMultiple(a.den, b.den);
    Reduce(Gcd(a.num, b.num), Lcm(a.den, b.den))
  }

  function LcmQ(a: Q, b: Q): Q
    requires a.den != 0 && b.den != 0
  {
    GcdPositive(a.den, b.den);
    Reduce(Lcm(a.num, b.num), Gcd(a.den, b.den))
  }

  /** For normal forms, dividing splits into the numerators and, the other way round, the denominators. */
  lemma DividesTermwise(x: Q, y: Q)
    requires Normal(x) && Normal(y)
    ensures DividesQ(x, y) <==> Divides(x.num, y.num) && Divides(y.den, x.den)
  {
    hide Gcd;
    if DividesQ(x, y) {
      MultipleDivides(y.den, x.num);
      MultipleDivides(x.num, y.den);
      DividesTrans(x.num, x.num * y.den, y.num * x.den);
      DividesTrans(y.den, x.num * y.den, y.num * x.den);
      assert y.num * x.den == x.den * y.num;
      EuclidLemma(x.num, x.den, y.num);
      CoprimeSymmetric(y.num, y.den);
      EuclidLemma(y.den, y.num, x.den);
    }
    if Divides(x.num, y.num) && Divides(y.den, x.den) {
      var k := Cofactor(x.num, y.num);
      var l := Cofactor(y.den, x.den);
      ProductSwap(k, l, x.num, y.den);
      MultipleDivides(k * l, x.num * y.den);
    }
  }

  lemma CoprimeToLcm(g: int, a: int, b: int)
    requires Coprime(g, a) && Coprime(g, b)
    ensures Coprime(g, Lcm(a, b))
  {
    hide Gcd, Lcm;
    CoprimeSymmetric(g, a);
    CoprimeSymmetric(g, b);
    CoprimeProduct(a, b, g);
    MultipleDivides(b, a);
    MultipleDivides(a, b);
    CommonMultiple(a, b, a * b);
    CoprimeDivisor(Lcm(a, b), a * b, g);
    CoprimeSymmetric(g, Lcm(a, b));
  }

  /** The arguments `gcd` hands to the constructor are in normal form already, unless both are zero. */
  lemma GcdQIsNormal(a: Q, b: Q)
    requires Normal(a) && Normal(b)
    ensures Normal(GcdQ(a, b))
    ensures a.num != 0 || b.num != 0 ==> GcdQ(a, b) == Q(Gcd(a.num, b.num), Lcm(a.den, b.den))
    ensures a.num == 0 && b.num == 0 ==> GcdQ(a, b) == OfInt(0)
  {
    hide Gcd, Lcm;
    LcmIsMultiple(a.den, b.den);
    var g := Gcd(a.num, b.num);
    ReduceIsNormal(g, Lcm(a.den, b.den));
    GcdPositive(a.num, b.num);
    if g == 0 {
      OfIntIsNormal(0);
      ReduceUnique(OfInt(0), 0, Lcm(a.den, b.den));
    } else {
      GcdDivides(a.num, b.num);
      CoprimeDivisor(g, a.num, a.den);
      CoprimeDivisor(g, b.num, b.den);
      CoprimeToLcm(g, a.den, b.den);
      NormalIsReduced(Q(g, Lcm(a.den, b.den)));
    }
  }

  lemma LcmQIsNormal(a: Q, b: Q)
    requires Normal(a) && Normal(b)
    ensures Normal(LcmQ(a, b))
    ensures LcmQ(a, b) == Q(Lcm(a.num, b.num), Gcd(a.den, b.den))
  {
    hide Gcd, Lcm;
    var g := Gcd(a.den, b.den);
    GcdPositive(a.den, b.den);
    GcdDivides(a.den, b.den);
    CoprimeSymmetric(a.num, a.den);
    CoprimeSymmetric(b.num, b.den);
    CoprimeDivisor(g, a.den, a.num);
    CoprimeDivisor(g, b.den, b.num);
    CoprimeToLcm(g, a.num, b.num);
    CoprimeSymmetric(g, Lcm(a.num, b.num));
    NormalIsReduced(Q(Lcm(a.num, b.num), g));
  }

  /** `gcd(a, b)` divides both arguments, and everything that divides both divides it. */
  lemma GcdQIsGreatestDivisor(a: Q, b: Q, x: Q)
    requires Normal(a) && Normal(b) && Normal(x)
    ensures DividesQ(GcdQ(a, b), a) && DividesQ(GcdQ(a, b), b)
    ensures DividesQ(x, a) && DividesQ(x, b) <==> DividesQ(x, GcdQ(a, b))
  {
    hide Gcd, Lcm, DividesQ;
    var g := GcdQ(a, b);
    GcdQIsNormal(a, b);
    DividesTermwise(g, a);
    DividesTermwise(g, b);
    DividesTermwise(x, a);
    DividesTermwise(x, b);
    DividesTermwise(x, g);
    if a.num == 0 && b.num == 0 {
      CoprimeToZero(a.den);
      CoprimeToZero(b.den);
      MultipleDivides(1, 0);
      MultipleDivides(1, 1);
    } else {
      GcdDivides(a.num, b.num);
      LcmIsMultiple(a.den, b.den);
      if DividesQ(x, a) && DividesQ(x, b) {
        CommonDivisor(x.num, a.num, b.num);
        CommonMultiple(a.den, b.den, x.den);
      }
      if DividesQ(x, g) {
        DividesTrans(x.num, g.num, a.num);
        DividesTrans(x.num, g.num, b.num);
        DividesTrans(a.den, g.den, x.den);
        DividesTrans(b.den, g.den, x.den);
      }
    }
  }

  /** `lcm(a, b)` is a multiple of both arguments, and divides every multiple of both. */
  lemma LcmQIsLeastMultiple(a: Q, b: Q, y: Q)
    requires Normal(a) && Normal(b) && Normal(y)
    ensures DividesQ(a, LcmQ(a, b)) && DividesQ(b, LcmQ(a, b))
    ensures DividesQ(a, y) && DividesQ(b, y) <==> DividesQ(LcmQ(a, b), y)
  {
    hide Gcd, Lcm, DividesQ;
    var m := LcmQ(a, b);
    LcmQIsNormal(a, b);
    DividesTermwise(a, m);
    DividesTermwise(b, m);
    DividesTermwise(a, y);
    DividesTermwise(b, y);
    DividesTermwise(m, y);
    GcdDivides(a.den, b.den);
    LcmIsMultiple(a.num, b.num);
    if DividesQ(a, y) && DividesQ(b, y) {
      CommonDivisor(y.den, a.den, b.den);
      CommonMultiple(a.num, b.num, y.num);
    }
    if DividesQ(m, y) {
      DividesTrans(a.num, m.num, y.num);
      DividesTrans(b.num, m.num, y.num);
      DividesTrans(y.den, m.den, a.den);
      DividesTrans(y.den, m.den, b.den);
    }
  }

  /** gcd_evaluator for rationals. */
  method GcdOf(a: Rational, b: Rational) returns (g: Rational)
    requires a.Valid() && b.Valid() && a.T == b.T
    requires Holds(a.T, Q(Gcd(a.num, b.num), Lcm(a.den, b.den)))
    ensures fresh(g) && g.T == a.T && g.Valid() && g.Value() == GcdQ(a.Value(), b.Value())
  {
    hide Gcd, Lcm;
    GcdQIsNormal(a.Value(), b.Value());
    var n := IntegerGcd(a.T, a.num, b.num);
    var d := IntegerLcm(a.T, a.den, b.den);
    LcmIsMultiple(a.den, b.den);
    g := new Rational(a.T, n, d);
    var o := g.Normalize();
  }

  /** lcm_evaluator for rationals. */
  method LcmOf(a: Rational, b: Rational) returns (m: Rational)
    requires a.Valid() && b.Valid() && a.T == b.T
    requires Holds(a.T, Q(Lcm(a.num, b.num), Gcd(a.den, b.den)))
    ensures fresh(m) && m.T == a.T && m.Valid() && m.Value() == LcmQ(a.Value(), b.Value())
  {
    hide Gcd, Lcm;
    LcmQIsNormal(a.Value(), b.Value());
    var n := IntegerLcm(a.T, a.num, b.num);
    var d := IntegerGcd(a.T, a.den, b.den);
    GcdPositive(a.den, b.den);
    m := new Rational(a.T, n, d);
    var o := m.Normalize();
  }

  // ---------------------------------------------------------------------------
  // The class's own normal-form test

  function InnerGcd(a: int, b: int): int
    decreases Abs(b)
  {
    if b == 0 then a else TruncDivRem(a, b); InnerGcd(b, TruncRem(a, b))
  }

  lemma {:induction false} InnerGcdMagnitude(a: int, b: int)
    ensures Abs(InnerGcd(a, b)) == Gcd(a, b)
    decreases Abs(b)
  {
    if b != 0 {
      TruncDivRem(a, b);
      InnerGcdMagnitude(b, TruncRem(a, b));
      GcdTruncRem(a, b);
      GcdSymmetric(b, TruncRem(a, b));
    }
  }

  predicate IsNormalized(n: int, d: int) {
    d > 0 && (n != 0 || d == 1) && Abs(InnerGcd(n, d)) == 1
  }

  /** The test accepts exactly the normal forms. */
  lemma IsNormalizedDecidesNormal(n: int, d: int)
    ensures IsNormalized(n, d) <==> Normal(Q(n, d))
  {
    InnerGcdMagnitude(n, d);
    if Normal(Q(0, d)) && n == 0 {
      CoprimeToZero(d);
    }
  }

  // ---------------------------------------------------------------------------
  // Where a built-in type falls short

  /** With the divisors `/=` computes, what its two products and sign flip need is exactly `QuotientFits`. */
  lemma QuotientFitsExactly(T: IntType, a: Q, b: Q)
    requires Normal(a) && Normal(b) && a.num != 0 && b.num != 0
    requires T.Fits(1) && Holds(T, a) && Holds(T, b)
    ensures T.Unbounded? || (Gcd(a.num, b.num) <= T.max + 1 && Gcd(b.den, a.den) <= T.max + 1)
    ensures T.ToSigned(Gcd(a.num, b.num)) != 0 && T.ToSigned(Gcd(b.den, a.den)) > 0
    ensures
      var g, e := T.ToSigned(Gcd(a.num, b.num)), T.ToSigned(Gcd(b.den, a.den));
      var n, d := TruncDiv(a.num, g) * TruncDiv(b.den, e), TruncDiv(a.den, e) * TruncDiv(b.num, g);
      (T.Fits(n) && T.Fits(d) && (d < 0 ==> T.Fits(-n) && T.Fits(-d))) <==> QuotientFits(T, a, b)
  {
    hide Gcd, Quot;
    GcdPositive(a.num, b.num);
    GcdPositive(b.den, a.den);
    var g, e := T.ToSigned(Gcd(a.num, b.num)), T.ToSigned(Gcd(b.den, a.den));
    StepsFit(T, a.num, b.num, g);
    StepsFit(T, b.den, a.den, e);
    QuotientByCrossGcds(a, b, g);
    if g < 0 {
      var i, j := Quotients(b.den, a.den, e);
      SignOfFactor(i, e);
      MulLe(0, TruncDiv(a.num, g), i);
    }
  }

  /** In 32 bits 2^30 / (-1/2) is -2^31, which fits, but the quotient passes through 2^31. */
  lemma RepresentableQuotientOverflows()
    ensures
      var T, a, b := Signed(0x7fff_ffff), Q(0x4000_0000, 1), Q(-1, 2);
      Normal(a) && Normal(b) && Holds(T, a) && Holds(T, b)
      && Holds(T, Quot(a, b)) && !QuotientFits(T, a, b)
  {
    OfIntIsNormal(0x4000_0000);
    CoprimeFromBezout(-1, 2, -1, 0);
    OfIntIsNormal(-0x8000_0000);
    ReduceUnique(OfInt(-0x8000_0000), 0x4000_0000 * 2, 1 * -1);
  }

  /** In a signed byte the constructor turns -128 / -3 into -128/3: it fails to notice the overflow. */
  method ConstructorLosesSign() returns (r: Rational, o: Outcome)
    ensures o == Done && r.Value() == Q(-128, 3)
    ensures Reduce(-128, -3) == Q(128, 3)
  {
    CoprimeFromBezout(128, 3, -1, 43);
    ReduceUnique(Q(128, 3), -128, -3);
    r := new Rational(Signed(127), -128, -3);
    o := r.Normalize();
  }
}
