/**
 boost::rational over an integer type: a numerator and a denominator updated in
 place. Every arithmetic step goes through the checked operations of `IntType`, so
 that a method that verifies never leaves the range of the type.
 */
module Rational {
  import opened Integers
  import opened CommonFactor
  import opened RationalValue
  import opened RationalCancel

  /** How an operator ends: normally, or by throwing bad_rational. */
  datatype Outcome = Done | BadRational(what: string)

  const ZeroDenominator := "bad rational: zero denominator"
  const SingularDenominator := "bad rational: non-zero singular denominator"

  /** The type can hold this fraction. */
  predicate Holds(T: IntType, q: Q) {
    T.Fits(q.num) && T.Fits(q.den)
  }

  /** What `+=` asks of the type: its two products and their sum fit, and so does the final denominator. */
  predicate SumFits(T: IntType, a: Q, b: Q)
    requires a.den > 0 && b.den > 0
  {
    GcdPositive(a.den, b.den);
    var g := Gcd(a.den, b.den);
    var x, y := a.num * TruncDiv(b.den, g), b.num * TruncDiv(a.den, g);
    T.Fits(x) && T.Fits(y) && T.Fits(x + y) && T.Fits(Plus(a, b).den)
  }

  predicate DifferenceFits(T: IntType, a: Q, b: Q)
    requires a.den > 0 && b.den > 0
  {
    GcdPositive(a.den, b.den);
    var g := Gcd(a.den, b.den);
    var x, y := a.num * TruncDiv(b.den, g), b.num * TruncDiv(a.den, g);
    T.Fits(x) && T.Fits(y) && T.Fits(x - y) && T.Fits(Minus(a, b).den)
  }

  /** What `/=` asks: the quotient fits, also before the sign moves up from the denominator. */
  predicate QuotientFits(T: IntType, a: Q, b: Q)
    requires a.den > 0 && b.den > 0
  {
    b.num != 0 ==> Holds(T, Quot(a, b)) && (b.num < 0 ==> T.Fits(-Quot(a, b).num))
  }

  /** The type can represent a value at all exactly when it can hold the value's normal form. */
  lemma RepresentableIffReducedFits(T: IntType, n: int, d: int)
    requires d != 0
    ensures (exists p: int, q: int :: q > 0 && T.Fits(p) && T.Fits(q) && p * d == n * q) <==> Holds(T, Reduce(n, d))
  {
    hide Gcd;
    var r := Reduce(n, d);
    ReduceIsNormal(n, d);
    if p: int, q: int :| q > 0 && T.Fits(p) && T.Fits(q) && p * d == n * q {
      SameValueTransitive(r.num, r.den, n, d, p, q);
      LeastTerms(r, p, q);
      FitsBetween(T, p, r.num);
      FitsBetween(T, q, r.den);
    }
    if Holds(T, r) {
      assert r.den > 0 && T.Fits(r.num) && T.Fits(r.den) && r.num * d == n * r.den;
    }
  }

  lemma SameValueTransitive(rn: int, rd: int, n: int, d: int, p: int, q: int)
    requires d != 0 && rn * d == n * rd && p * d == n * q
    ensures rn * q == p * rd
  {
    MulAssoc(rn, q, d);
    MulAssoc(rn, d, q);
    MulAssoc(n, rd, q);
    MulAssoc(p, rd, d);
    MulAssoc(p, d, rd);
    MulAssoc(n, q, rd);
    Cancel(rn * q, p * rd, d);
  }

  lemma FitsBetween(T: IntType, x: int, y: int)
    requires T.Fits(x) && Abs(y) <= Abs(x) && (x >= 0 <==> y >= 0)
    ensures T.Fits(y)
  {
  }

  lemma FitsQuotient(T: IntType, a: int, i: int, g: int)
    requires T.Fits(a) && a == i * g && g > 0
    ensures T.Fits(i)
  {
    if i >= 0 { MulLe(1, g, i); } else { MulLe(1, g, -i); MulNeg(i, g); }
  }

  /** The quotient rounded down, with its remainder, splits the fraction uniquely. */
  ghost predicate Mixed(n: int, d: int, q: int, r: int) {
    n == q * d + r && 0 <= r < d
  }

  lemma MixedFits(T: IntType, n: int, d: int, q: int, r: int)
    requires T.Fits(n) && T.Fits(d) && Mixed(n, d, q, r)
    ensures T.Fits(q) && T.Fits(r)
  {
    if q >= 0 {
      MulLe(1, d, q);
    } else {
      // q * d > n - d, and q >= n because q * d <= q
      MulLe(1, d, -1 - q);
      MulNeg(1 + q, d);
      Distribute(1, q, d);
    }
  }

  /** Breaks `n/d` into mixed-fraction form with a nonnegative remainder, repairing truncation. */
  method MixedFraction(T: IntType, n: int, d: int) returns (q: int, r: int)
    requires T.Fits(n) && T.Fits(d) && T.Fits(1) && d > 0
    ensures Mixed(n, d, q, r) && T.Fits(q) && T.Fits(r)
  {
    TruncDivRem(n, d);
    QuotientInRange(T, n, d);
    q, r := T.Div(n, d), T.Rem(n, d);
    while r < 0
      invariant n == q * d + r && -d < r < d
      invariant T.Fits(q) && T.Fits(r)
      decreases -r
    {
      Distribute(q - 1, 1, d);
      MixedFits(T, n, d, q - 1, r + d);
      r := T.Add(r, d);
      q := T.Sub(q, 1);
    }
  }

  lemma QuotientInRange(T: IntType, n: int, d: int)
    requires T.Fits(n) && T.Fits(d) && d > 0
    ensures T.Fits(TruncDiv(n, d)) && T.Fits(TruncRem(n, d))
  {
    TruncDivRem(n, d);
    QuotientMagnitude(Abs(n), d);
  }

  lemma QuotientMagnitude(x: nat, d: int)
    requires d > 0
    ensures 0 <= x / d <= x && 0 <= x % d < d
  {
    var q, r := x / d, x % d;
    assert x == q * d + r;
    MulLe(1, d, q);
  }

  // ---------------------------------------------------------------------------
  // One step of the two lockstep continued-fraction expansions

  /** `n1/d1` precedes `n2/d2`, or follows it when an odd number of reciprocals has been taken. */
  ghost predicate Ordered(reverse: bool, n1: int, d1: int, n2: int, d2: int) {
    if reverse then n2 * d1 < n1 * d2 else n1 * d2 < n2 * d1
  }

  lemma QuotientsDecide(reverse: bool, n1: int, d1: int, q1: int, r1: int, n2: int, d2: int, q2: int, r2: int)
    requires Mixed(n1, d1, q1, r1) && Mixed(n2, d2, q2, r2)
    requires q1 != q2
    ensures Ordered(reverse, n1, d1, n2, d2) <==> if reverse then q1 > q2 else q1 < q2
  {
    if q1 < q2 {
      SmallerQuotient(n1, d1, q1, r1, n2, d2, q2, r2);
    } else {
      SmallerQuotient(n2, d2, q2, r2, n1, d1, q1, r1);
    }
  }

  lemma SmallerQuotient(n1: int, d1: int, q1: int, r1: int, n2: int, d2: int, q2: int, r2: int)
    requires Mixed(n1, d1, q1, r1) && Mixed(n2, d2, q2, r2)
    requires q1 < q2
    ensures n1 * d2 < n2 * d1
  {
    MulLe(q1 + 1, q2, d1);
    Distribute(q1, 1, d1);
    MulLt(n1, q2 * d1, d2);
    MulLe(q2 * d2, n2, d1);
    MulAssoc(q2, d1, d2);
    MulAssoc(q2, d2, d1);
  }

  /** Equal quotients cancel, and the reciprocals of the remainders compare the other way round. */
  lemma EqualQuotientsCancel(reverse: bool, n1: int, d1: int, r1: int, n2: int, d2: int, r2: int, q: int)
    requires Mixed(n1, d1, q, r1) && Mixed(n2, d2, q, r2)
    ensures Ordered(reverse, n1, d1, n2, d2) <==> Ordered(!reverse, d1, r1, d2, r2)
  {
    Distribute(q * d1, r1, d2);
    Distribute(q * d2, r2, d1);
    MulAssoc(q, d1, d2);
    MulAssoc(q, d2, d1);
  }

  /** An expansion that has ended counts as infinite, an exhausted pair as equal. */
  lemma ExpansionEnds(reverse: bool, d1: int, r1: int, d2: int, r2: int)
    requires 0 <= r1 < d1 && 0 <= r2 < d2 && (r1 == 0 || r2 == 0)
    ensures Ordered(reverse, d1, r1, d2, r2) <==> r1 != r2 && ((r1 != 0) != reverse)
  {
    if r1 != 0 { MulLt(0, r1, d2); }
    if r2 != 0 { MulLt(0, r2, d1); }
  }

  class Rational {
    const T: IntType
    var num: int
    var den: int

    ghost predicate InRange()
      reads this
    {
      T.Fits(num) && T.Fits(den) && T.Fits(1)
    }

    ghost function Value(): Q
      reads this
    {
      Q(num, den)
    }

    ghost predicate Valid()
      reads this
    {
      InRange() && Normal(Value())
    }

    /** The fields as a constructor receives them, before `Normalize`. */
    constructor (T: IntType, n: int, d: int)
      requires T.Fits(n) && T.Fits(d) && T.Fits(1)
      ensures this.T == T && InRange() && Value() == Q(n, d)
    {
      this.T, num, den := T, n, d;
    }

    /**
     Fails exactly when the denominator is zero or its reduced magnitude does not fit.
     Otherwise the denominator is right, and the numerator is too unless its reduced
     magnitude does not fit: then it is the minimum, with the wrong sign.
     */
    method Normalize() returns (o: Outcome)
      requires InRange()
      modifies this
      ensures o.Done? <==> old(den) != 0 && T.Fits(Reduce(old(num), old(den)).den)
      ensures old(den) == 0 ==> o == BadRational(ZeroDenominator) && Value() == old(Value())
      ensures old(den) != 0 && !o.Done? ==> o == BadRational(SingularDenominator)
      ensures o.Done? ==>
        var q := Reduce(old(num), old(den));
        InRange() && den == q.den && num == (if T.Fits(q.num) then q.num else -q.num)
    {
      hide Gcd;
      if den == 0 {
        return BadRational(ZeroDenominator);
      }
      GcdPositive(num, den);
      if num == 0 {
        GcdZero(den);
        ExactDivision(if den > 0 then 1 else -1, Abs(den));
        den := 1;
        return Done;
      }
      var g := IntegerGcd(T, num, den);
      ghost var i, j := Quotients(num, den, g);
      NormalizeStep(T, num, den, i, j, g);
      num := T.Div(num, g);
      den := T.Div(den, g);
      if den < 0 {
        num, den := T.Neg(num), T.Neg(den);
      }
      if den < 0 {
        return BadRational(SingularDenominator);
      }
      return Done;
    }

    /** `+=`; `r` may be this very object. */
    method AddAssign(r: Rational)
      requires Valid() && r.Valid() && r.T == T
      requires SumFits(T, Value(), r.Value())
      modifies this
      ensures Valid() && Value() == Plus(old(Value()), old(r.Value()))
    {
      hide Gcd, Plus, Reduce, TruncDiv;
      ghost var a, b := Value(), r.Value();
      SumByPartialGcd(a, b);
      ClosedUnderOperators(a, b);
      SumStepsFit(T, a, b);
      var rNum, rDen := r.num, r.den;
      var g := IntegerGcd(T, den, rDen);
      den := T.Div(den, g);
      num := T.Add(T.Mul(num, T.Div(rDen, g)), T.Mul(rNum, den));
      g := IntegerGcd(T, num, g);
      num := T.Div(num, g);
      den := T.Mul(den, T.Div(rDen, g));
    }

    /** `-=`. */
    method SubAssign(r: Rational)
      requires Valid() && r.Valid() && r.T == T
      requires DifferenceFits(T, Value(), r.Value())
      modifies this
      ensures Valid() && Value() == Minus(old(Value()), old(r.Value()))
    {
      hide Gcd, Plus, Reduce, TruncDiv;
      ghost var a, b := Value(), Negated(r.Value());
      GcdNegate(r.num, r.den);
      DifferenceIsSum(a.num, r.num, a.den, r.den);
      SumByPartialGcd(a, b);
      ClosedUnderOperators(a, b);
      SumStepsFit(T, a, b);
      var rNum, rDen := r.num, r.den;
      var g := IntegerGcd(T, den, rDen);
      den := T.Div(den, g);
      num := T.Sub(T.Mul(num, T.Div(rDen, g)), T.Mul(rNum, den));
      g := IntegerGcd(T, num, g);
      num := T.Div(num, g);
      den := T.Mul(den, T.Div(rDen, g));
    }

    /** `*=`: overflows only if the product, in lowest terms, does not fit. */
    method MulAssign(r: Rational)
      requires Valid() && r.Valid() && r.T == T
      requires Holds(T, Mult(Value(), r.Value()))
      modifies this
      ensures Valid() && Value() == Mult(old(Value()), old(r.Value()))
    {
      hide Gcd;
      ghost var a, b := Value(), r.Value();
      ProductByCrossGcds(a, b);
      ClosedUnderOperators(a, b);
      var rNum, rDen := r.num, r.den;
      var gcd1 := IntegerGcd(T, num, rDen);
      var gcd2 := IntegerGcd(T, rNum, den);
      StepsFit(T, num, rDen, gcd1);
      StepsFit(T, rNum, den, gcd2);
      num := T.Mul(T.Div(num, gcd1), T.Div(rNum, gcd2));
      den := T.Mul(T.Div(den, gcd2), T.Div(rDen, gcd1));
    }

    /** `/=`: throws exactly on a zero divisor, and then changes nothing. */
    method DivAssign(r: Rational) returns (o: Outcome)
      requires Valid() && r.Valid() && r.T == T
      requires QuotientFits(T, Value(), r.Value())
      modifies this
      ensures Valid()
      ensures old(r.num) == 0 ==> o == BadRational(ZeroDenominator) && Value() == old(Value())
      ensures old(r.num) != 0 ==> o == Done && Value() == Quot(old(Value()), old(r.Value()))
    {
      hide Gcd;
      ghost var a, b := Value(), r.Value();
      var rNum, rDen := r.num, r.den;
      if rNum == 0 {
        return BadRational(ZeroDenominator);
      }
      ClosedUnderOperators(a, b);
      if num == 0 {
        ZeroOverAnything(a, b);
        return Done;
      }
      var gcd1 := IntegerGcd(T, num, rNum);
      var gcd2 := IntegerGcd(T, rDen, den);
      StepsFit(T, num, rNum, gcd1);
      StepsFit(T, rDen, den, gcd2);
      QuotientByCrossGcds(a, b, gcd1);
      QuotientStepsFit(T, a, b, gcd1);
      num := T.Mul(T.Div(num, gcd1), T.Div(rDen, gcd2));
      den := T.Mul(T.Div(den, gcd2), T.Div(rNum, gcd1));
      if den < 0 {
        num, den := T.Neg(num), T.Neg(den);
      }
      return Done;
    }

    /** `+=` with an integer. */
    method AddInt(i: int)
      requires Valid() && T.Fits(i) && T.Fits(i * den) && T.Fits(num + i * den)
      modifies this
      ensures Valid() && Value() == Plus(old(Value()), OfInt(i))
    {
      hide Gcd;
      OfIntIsNormal(i);
      ClosedUnderOperators(Value(), OfInt(i));
      IntSum(Value(), i);
      num := T.Add(num, T.Mul(i, den));
    }

    /** `-=` with an integer. */
    method SubInt(i: int)
      requires Valid() && T.Fits(i) && T.Fits(i * den) && T.Fits(num - i * den)
      modifies this
      ensures Valid() && Value() == Minus(old(Value()), OfInt(i))
    {
      hide Gcd;
      IntDifference(Value(), i);
      num := T.Sub(num, T.Mul(i, den));
    }

    /** `*=` with an integer. */
    method MulInt(i: int)
      requires Valid() && T.Fits(i) && Holds(T, Mult(Value(), OfInt(i)))
      modifies this
      ensures Valid() && Value() == Mult(old(Value()), OfInt(i))
    {
      hide Gcd;
      OfIntIsNormal(i);
      ClosedUnderOperators(Value(), OfInt(i));
      IntProduct(Value(), i);
      var gcd := IntegerGcd(T, i, den);
      StepsFit(T, i, den, gcd);
      num := T.Mul(num, T.Div(i, gcd));
      den := T.Div(den, gcd);
    }

    /** `/=` with an integer. */
    method DivInt(i: int) returns (o: Outcome)
      requires Valid() && T.Fits(i)
      requires i != 0 ==> Holds(T, Quot(Value(), OfInt(i)))
      modifies this
      ensures Valid()
      ensures i == 0 ==> o == BadRational(ZeroDenominator) && Value() == old(Value())
      ensures i != 0 ==> o == Done && Value() == Quot(old(Value()), OfInt(i))
    {
      hide Gcd;
      ghost var a := Value();
      if i == 0 {
        return BadRational(ZeroDenominator);
      }
      OfIntIsNormal(i);
      ClosedUnderOperators(a, OfInt(i));
      if num == 0 {
        ZeroOverAnything(a, OfInt(i));
        return Done;
      }
      var gcd := IntegerGcd(T, num, i);
      StepsFit(T, num, i, gcd);
      IntQuotient(a, i, gcd);
      num := T.Div(num, gcd);
      den := T.Mul(den, T.Div(i, gcd));
      if den < 0 {
        num, den := T.Neg(num), T.Neg(den);
      }
      return Done;
    }

    // -------------------------------------------------------------------------
    // Comparisons

    /** `<`, for positive denominators, never forming a product. */
    method LessThan(r: Rational) returns (less: bool)
      requires InRange() && r.InRange() && r.T == T
      requires den > 0 && r.den > 0
      ensures less <==> Less(Value(), r.Value())
    {
      hide Ordered;
      var tn, td := num, den;
      var rn, rd := r.num, r.den;
      var tq, tr := MixedFraction(T, tn, td);
      var rq, rr := MixedFraction(T, rn, rd);
      var reverse := false;
      LessIsOrdered(Value(), r.Value());
      hide Less;
      while true
        invariant T.Fits(tn) && T.Fits(td) && T.Fits(rn) && T.Fits(rd)
        invariant Mixed(tn, td, tq, tr) && Mixed(rn, rd, rq, rr)
        invariant Less(Value(), r.Value()) <==> Ordered(reverse, tn, td, rn, rd)
        decreases td
      {
        if tq != rq {
          QuotientsDecide(reverse, tn, td, tq, tr, rn, rd, rq, rr);
          return if reverse then tq > rq else tq < rq;
        }
        EqualQuotientsCancel(reverse, tn, td, tr, rn, rd, rr, tq);
        reverse := !reverse;
        if tr == 0 || rr == 0 {
          break;
        }
        MixedStep(T, td, tr);
        MixedStep(T, rd, rr);
        tn, td := td, tr;
        tq, tr := T.Div(tn, td), T.Rem(tn, td);
        rn, rd := rd, rr;
        rq, rr := T.Div(rn, rd), T.Rem(rn, rd);
      }
      ExpansionEnds(reverse, td, tr, rd, rr);
      if tr == rr {
        return false;
      } else {
        return (tr != 0) != reverse;
      }
    }

    /** `<` with an integer: only the rounded-down quotient matters. */
    method LessThanInt(i: int) returns (less: bool)
      requires InRange() && T.Fits(i) && den > 0
      ensures less <==> Less(Value(), OfInt(i))
    {
      var q, r := MixedFraction(T, num, den);
      if q < i {
        MulLe(q + 1, i, den);
        Distribute(q, 1, den);
      } else {
        MulLe(i, q, den);
      }
      return q < i;
    }

    method EqualsInt(i: int) returns (equal: bool)
      requires Valid()
      ensures equal <==> num == i * den
    {
      hide Gcd;
      OfIntIsNormal(i);
      NormalFormsUnique(Value(), OfInt(i));
      return den == 1 && num == i;
    }

    method GreaterThanInt(i: int) returns (greater: bool)
      requires Valid() && T.Fits(i)
      ensures greater <==> Less(OfInt(i), Value())
    {
      var equal := EqualsInt(i);
      var less := LessThanInt(i);
      return if equal then false else !less;
    }
  }

  lemma LessIsOrdered(a: Q, b: Q)
    ensures Less(a, b) <==> Ordered(false, a.num, a.den, b.num, b.den)
  {
  }

  lemma MixedStep(T: IntType, n: int, d: int)
    requires T.Fits(n) && T.Fits(d) && 0 < d && 0 <= n
    ensures Mixed(n, d, TruncDiv(n, d), TruncRem(n, d))
    ensures T.Fits(TruncDiv(n, d)) && T.Fits(TruncRem(n, d))
  {
    TruncDivRem(n, d);
    QuotientInRange(T, n, d);
  }

  // ---------------------------------------------------------------------------
  // Range bookkeeping for the class methods

  lemma StepsFit(T: IntType, a: int, b: int, g: int)
    requires T.Fits(1) && T.Fits(a) && T.Fits(b) && (a != 0 || b != 0)
    requires T.Unbounded? || Gcd(a, b) <= T.max + 1
    requires g == T.ToSigned(Gcd(a, b))
    ensures g != 0 && Abs(g) == Gcd(a, b)
    ensures T.Fits(g) && T.Fits(TruncDiv(a, g)) && T.Fits(TruncDiv(b, g))
    ensures (a > 0 || b > 0) ==> g > 0
    ensures g < 0 ==> TruncDiv(a, g) >= 0 && TruncDiv(b, g) >= 0
  {
    hide Gcd;
    GcdPositive(a, b);
    var i, j := Quotients(a, b, g);
    if g > 0 {
      FitsQuotient(T, a, i, g);
      FitsQuotient(T, b, j, g);
    } else {
      // only the minimum has this magnitude, so each quotient is zero or one
      OnlyMinimum(T, a, i, g);
      OnlyMinimum(T, b, j, g);
    }
  }

  lemma OnlyMinimum(T: IntType, a: int, i: int, g: int)
    requires T.Signed? && T.Fits(1) && T.Fits(a) && a == i * g && g + T.max + 1 == 0
    ensures (i == 0 || i == 1) && T.Fits(i) && a <= 0
  {
    if i < 0 {
      MulLe(i, -1, -g);
      MulNeg(g, i);
    } else if i > 1 {
      MulLe(2, i, -g);
      MulNeg(g, i);
    }
  }

  lemma SumStepsFit(T: IntType, a: Q, b: Q)
    requires Normal(a) && Normal(b) && T.Fits(a.den) && T.Fits(b.den)
    ensures Gcd(a.den, b.den) > 0
    ensures
      var g := Gcd(a.den, b.den);
      var s := a.num * TruncDiv(b.den, g) + b.num * TruncDiv(a.den, g);
      var h := Gcd(s, g);
      h > 0 && T.Fits(g) && T.Fits(h)
      && T.Fits(TruncDiv(a.den, g)) && T.Fits(TruncDiv(b.den, g)) && T.Fits(TruncDiv(b.den, h))
      && (T.Fits(s) ==> T.Fits(TruncDiv(s, h)))
  {
    hide Gcd;
    var g := Gcd(a.den, b.den);
    GcdPositive(a.den, b.den);
    QuotientInRange(T, a.den, g);
    QuotientInRange(T, b.den, g);
    var s := a.num * TruncDiv(b.den, g) + b.num * TruncDiv(a.den, g);
    GcdPositive(s, g);
    var h := Gcd(s, g);
    QuotientInRange(T, b.den, h);
    if T.Fits(s) {
      QuotientInRange(T, s, h);
    }
  }

  lemma DifferenceIsSum(an: int, bn: int, ad: int, bd: int)
    requires ad > 0 && bd > 0
    ensures Gcd(ad, bd) > 0
    ensures
      var g := Gcd(ad, bd);
      an * TruncDiv(bd, g) - bn * TruncDiv(ad, g) == an * TruncDiv(bd, g) + (-bn) * TruncDiv(ad, g)
  {
    hide Gcd;
    GcdPositive(ad, bd);
    MulNeg(bn, TruncDiv(ad, Gcd(ad, bd)));
  }

  lemma QuotientStepsFit(T: IntType, a: Q, b: Q, g: int)
    requires Normal(a) && Normal(b) && a.num != 0 && b.num != 0
    requires g != 0 && Abs(g) == Gcd(a.num, b.num)
    requires (a.num > 0 || b.num > 0) ==> g > 0
    requires g < 0 ==> TruncDiv(a.num, g) >= 0
    requires T.Fits(1) && QuotientFits(T, a, b)
    ensures Gcd(b.den, a.den) > 0
    ensures
      var e := Gcd(b.den, a.den);
      T.Fits(TruncDiv(a.num, g) * TruncDiv(b.den, e)) && T.Fits(TruncDiv(a.den, e) * TruncDiv(b.num, g))
  {
    hide Gcd;
    QuotientByCrossGcds(a, b, g);
  }

  lemma ZeroOverAnything(a: Q, b: Q)
    requires Normal(a) && a.num == 0 && b.num != 0 && b.den != 0
    ensures Quot(a, b) == a
  {
    hide Gcd;
    ZeroProduct(a.den, b.num);
    ReduceUnique(a, a.num * b.den, a.den * b.num);
  }

  lemma NormalizeStep(T: IntType, n: int, d: int, i: int, j: int, g: int)
    requires T.Fits(1) && T.Fits(n) && T.Fits(d) && n != 0 && d != 0
    requires T.Unbounded? || Gcd(n, d) <= T.max + 1
    requires g == T.ToSigned(Gcd(n, d)) && g != 0 && Abs(g) == Gcd(n, d)
    requires n == i * g && d == j * g && Coprime(i, j) && TruncDiv(n, g) == i && TruncDiv(d, g) == j
    ensures T.Fits(g) && T.Fits(i) && T.Fits(j) && j != 0
    ensures Reduce(n, d) == if j > 0 then Q(i, j) else Q(-i, -j)
  {
    hide Gcd;
    StepsFit(T, n, d, g);
    ReduceByQuotients(n, d, i, j, g);
  }

  lemma ReduceByQuotients(n: int, d: int, i: int, j: int, g: int)
    requires d != 0 && n == i * g && d == j * g && Coprime(i, j)
    ensures j != 0 && Reduce(n, d) == if j > 0 then Q(i, j) else Q(-i, -j)
  {
    hide Gcd;
    ZeroProduct(j, g);
    CrossProduct(i, j, g);
    if j > 0 {
      ReduceUnique(Q(i, j), n, d);
    } else {
      CoprimeNegated(i, j);
      MulNeg(i, d);
      MulNeg(j, n);
      ReduceUnique(Q(-i, -j), n, d);
    }
  }
}
