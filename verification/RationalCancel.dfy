/**
 Why the in-place operators may cancel before they multiply: each of them ends in
 the normal form of the textbook result, although it never computes the gcd of the
 textbook numerator and denominator.
 */
module RationalCancel {
  import opened Integers
  import opened RationalValue

  lemma Quotients(a: int, b: int, g: int) returns (i: int, j: int)
    requires g != 0 && Abs(g) == Gcd(a, b)
    ensures a == i * g && b == j * g && Coprime(i, j)
    ensures TruncDiv(a, g) == i && TruncDiv(b, g) == j
  {
    hide Gcd;
    GcdDivides(a, b);
    GcdPositive(a, b);
    i := Cofactor(Gcd(a, b), a);
    j := Cofactor(Gcd(a, b), b);
    CoprimeQuotients(a, b, i, j);
    if g < 0 {
      MulNeg(i, -g);
      MulNeg(j, -g);
      CoprimeNegated(i, j);
      i, j := -i, -j;
    }
    ExactDivision(i, g);
    ExactDivision(j, g);
  }

  // ---------------------------------------------------------------------------
  // Sums: the only factor left to cancel divides the gcd of the denominators.

  lemma SumCoprime(an: int, bn: int, i: int, j: int)
    requires Coprime(an, i) && Coprime(bn, j) && Coprime(i, j)
    ensures Coprime(an * j + bn * i, i) && Coprime(an * j + bn * i, j)
  {
    hide Gcd;
    CoprimeSymmetric(i, j);
    CoprimeProduct(an, j, i);
    GcdShift(an * j, i, bn);
    CoprimeProduct(bn, i, j);
    GcdShift(bn * i, j, an);
  }

  lemma SumIsNormal(s: int, i: int, j: int, u: int, w: int, h: int)
    requires Coprime(s, i) && Coprime(s, j) && Coprime(u, w) && s == u * h
    ensures Coprime(u, i * (j * w))
  {
    hide Gcd;
    MultipleDivides(h, u);
    CoprimeDivisor(u, s, i);
    CoprimeDivisor(u, s, j);
    CoprimeSymmetric(u, i);
    CoprimeSymmetric(u, j);
    CoprimeSymmetric(u, w);
    CoprimeProduct(j, w, u);
    CoprimeProduct(i, j * w, u);
    CoprimeSymmetric(u, i * (j * w));
  }

  lemma SumValue(an: int, bn: int, i: int, j: int, g: int, u: int, w: int, h: int)
    requires an * j + bn * i == u * h && g == w * h
    ensures u * ((i * g) * (j * g)) == (an * (j * g) + bn * (i * g)) * (i * (j * w))
  {
    // both sides are u * h * g * (i * j * w)
    MulAssoc(an, j, g);
    MulAssoc(bn, i, g);
    Distribute(an * j, bn * i, g);
    var p := i * (j * w);
    assert (i * g) * (j * g) == (h * g) * p by {
      ProductSwap(i, j, g, g);
      ProductSwap(i, g, j, g);
      MulAssoc(g, w, h);
      MulAssoc(i, j, w);
      ScaledProduct(i * j, w, h, g);
    }
    MulAssoc(u, h, g);
    MulAssoc(u, h * g, p);
  }

  lemma ScaledProduct(x: int, w: int, h: int, g: int)
    ensures x * (g * (w * h)) == (h * g) * (x * w)
  {
    MulAssoc(x, w, h * g);
    MulAssoc(w, h, g);
    MulAssoc(g, w, h);
  }

  /** `+=`: dividing by the gcd of the sum with the gcd of the denominators is full reduction. */
  lemma SumByPartialGcd(a: Q, b: Q)
    requires Normal(a) && Normal(b)
    ensures Gcd(a.den, b.den) > 0
    ensures
      var g := Gcd(a.den, b.den);
      var s := a.num * TruncDiv(b.den, g) + b.num * TruncDiv(a.den, g);
      var h := Gcd(s, g);
      h > 0 && TruncDiv(b.den, h) > 0
      && Plus(a, b) == Q(TruncDiv(s, h), TruncDiv(a.den, g) * TruncDiv(b.den, h))
  {
    hide Gcd;
    var g := Gcd(a.den, b.den);
    GcdPositive(a.den, b.den);
    var i, j := Quotients(a.den, b.den, g);
    SignOfFactor(i, g);
    SignOfFactor(j, g);
    MultipleDivides(g, i);
    MultipleDivides(g, j);
    CoprimeDivisor2(a.num, i, a.den);
    CoprimeDivisor2(b.num, j, b.den);
    var s := a.num * j + b.num * i;
    SumCoprime(a.num, b.num, i, j);
    var h := Gcd(s, g);
    GcdPositive(s, g);
    var u, w := Quotients(s, g, h);
    SignOfFactor(w, h);
    SumIsNormal(s, i, j, u, w, h);
    SumValue(a.num, b.num, i, j, g, u, w, h);
    MulAssoc(j, w, h);
    ExactDivision(j * w, h);
    MulLt(0, j, w);
    MulLt(0, i, j * w);
    ZeroProduct(a.den, b.den);
    ReduceUnique(Q(u, i * (j * w)), a.num * b.den + b.num * a.den, a.den * b.den);
  }

  // ---------------------------------------------------------------------------
  // Products: cancelling crosswise leaves nothing to cancel.

  lemma CrossCoprime(i: int, j: int, k: int, l: int)
    requires Coprime(i, j) && Coprime(i, l) && Coprime(k, j) && Coprime(k, l)
    ensures Coprime(i * k, l * j)
  {
    hide Gcd;
    CoprimeProduct(i, k, j);
    CoprimeProduct(i, k, l);
    CoprimeSymmetric(i * k, j);
    CoprimeSymmetric(i * k, l);
    CoprimeProduct(l, j, i * k);
    CoprimeSymmetric(i * k, l * j);
  }

  /** `i*k / (l*j)` is the reduced value of `(i*g) * (k*e) / ((l*e) * (j*g))`. */
  lemma CancelledProduct(i: int, j: int, k: int, l: int, g: int, e: int)
    requires Coprime(i * k, l * j)
    requires g != 0 && e != 0 && l * j != 0
    ensures (l * e) * (j * g) != 0
    ensures Reduce((i * g) * (k * e), (l * e) * (j * g))
         == if l * j > 0 then Q(i * k, l * j) else Q(-(i * k), -(l * j))
  {
    hide Gcd;
    CrossValue(i, j, k, l, g, e);
    ZeroProduct(e, g);
    ReduceScaled(e * g, i * k, l * j);
    if l * j > 0 {
      NormalIsReduced(Q(i * k, l * j));
    } else {
      ReduceToNegated(i * k, l * j);
    }
  }

  lemma CrossValue(i: int, j: int, k: int, l: int, g: int, e: int)
    ensures (i * g) * (k * e) == (e * g) * (i * k)
    ensures (l * e) * (j * g) == (e * g) * (l * j)
  {
    ProductSwap(i, k, g, e);
    ProductSwap(l, j, e, g);
  }

  lemma ReduceToNegated(n: int, d: int)
    requires d < 0 && Coprime(n, d)
    ensures Reduce(n, d) == Q(-n, -d)
  {
    hide Gcd;
    CoprimeNegated(n, d);
    MulNeg(n, d);
    MulNeg(d, n);
    ReduceUnique(Q(-n, -d), n, d);
  }

  /** `*=`: cancelling each numerator against the other denominator is full reduction. */
  lemma ProductByCrossGcds(a: Q, b: Q)
    requires Normal(a) && Normal(b)
    ensures Gcd(a.num, b.den) > 0 && Gcd(b.num, a.den) > 0
    ensures
      var g, e := Gcd(a.num, b.den), Gcd(b.num, a.den);
      Mult(a, b) == Q(TruncDiv(a.num, g) * TruncDiv(b.num, e), TruncDiv(a.den, e) * TruncDiv(b.den, g))
  {
    hide Gcd;
    var g, e := Gcd(a.num, b.den), Gcd(b.num, a.den);
    GcdPositive(a.num, b.den);
    GcdPositive(b.num, a.den);
    var i, j := Quotients(a.num, b.den, g);
    var k, l := Quotients(b.num, a.den, e);
    FactorsCoprime(a, i, g, l, e);
    FactorsCoprime(b, k, e, j, g);
    CoprimeSymmetric(k, l);
    CrossCoprime(i, j, k, l);
    SignOfFactor(j, g);
    SignOfFactor(l, e);
    MulLt(0, l, j);
    CancelledProduct(i, j, k, l, g, e);
  }

  lemma FactorsCoprime(a: Q, i: int, g: int, l: int, e: int)
    requires Coprime(a.num, a.den) && a.num == i * g && a.den == l * e
    ensures Coprime(i, l)
  {
    hide Gcd;
    MultipleDivides(g, i);
    MultipleDivides(e, l);
    CoprimeDivisor(i, a.num, a.den);
    CoprimeDivisor2(i, l, a.den);
  }

  /** `/=`: the same with the divisor turned over; `g` may come back negative, as the minimum does. */
  lemma QuotientByCrossGcds(a: Q, b: Q, g: int)
    requires Normal(a) && Normal(b) && a.num != 0 && b.num != 0
    requires g != 0 && Abs(g) == Gcd(a.num, b.num)
    ensures Gcd(b.den, a.den) > 0
    ensures
      var e := Gcd(b.den, a.den);
      var n, d := TruncDiv(a.num, g) * TruncDiv(b.den, e), TruncDiv(a.den, e) * TruncDiv(b.num, g);
      d != 0 && Quot(a, b) == (if d > 0 then Q(n, d) else Q(-n, -d))
      && (d > 0 <==> (b.num > 0 <==> g > 0))
  {
    hide Gcd;
    var e := Gcd(b.den, a.den);
    GcdPositive(b.den, a.den);
    var i, j := Quotients(a.num, b.num, g);
    var k, l := Quotients(b.den, a.den, e);
    FactorsCoprime(a, i, g, l, e);
    CoprimeSymmetric(b.num, b.den);
    FactorsCoprime(Q(b.den, b.num), k, e, j, g);
    CrossCoprime(i, j, k, l);
    SignOfFactor(l, e);
    ZeroProduct(j, g);
    ZeroProduct(l, j);
    CancelledProduct(i, j, k, l, g, e);
    SignOfProduct(l, j);
    SignOfProduct(g, j);
  }

  lemma SignOfProduct(x: int, y: int)
    requires x != 0 && y != 0
    ensures x * y > 0 <==> (x > 0 <==> y > 0)
  {
    if x > 0 && y > 0 {
      MulLt(0, x, y);
    } else if x < 0 && y < 0 {
      MulLt(0, -x, -y);
      assert (-x) * (-y) == x * y;
    } else if x > 0 {
      MulLt(0, x, -y);
      MulNeg(y, x);
    } else {
      MulLt(0, -x, y);
      MulNeg(x, y);
    }
  }

  // ---------------------------------------------------------------------------
  // One operand an integer

  lemma IntSum(a: Q, i: int)
    requires Normal(a)
    ensures Plus(a, OfInt(i)) == Q(a.num + i * a.den, a.den)
  {
    hide Gcd;
    GcdShift(a.num, a.den, i);
    NormalIsReduced(Q(a.num + i * a.den, a.den));
    assert a.num * 1 + i * a.den == a.num + i * a.den;
  }

  lemma IntDifference(a: Q, i: int)
    requires Normal(a)
    ensures Minus(a, OfInt(i)) == Q(a.num - i * a.den, a.den) && Normal(Minus(a, OfInt(i)))
  {
    hide Gcd, Reduce, Plus;
    IntSum(a, -i);
    MulNeg(i, a.den);
    OfIntIsNormal(-i);
    ClosedUnderOperators(a, OfInt(-i));
  }

  lemma OfIntIsNormal(i: int)
    ensures Normal(OfInt(i))
  {
    CoprimeFromBezout(i, 1, 0, 1);
  }

  lemma IntProduct(a: Q, i: int)
    requires Normal(a)
    ensures Gcd(i, a.den) > 0
    ensures
      var g := Gcd(i, a.den);
      Mult(a, OfInt(i)) == Q(a.num * TruncDiv(i, g), TruncDiv(a.den, g))
  {
    hide Gcd;
    OfIntIsNormal(i);
    ProductByCrossGcds(a, OfInt(i));
    OfIntIsNormal(a.num);
    ExactDivision(a.num, 1);
    ExactDivision(1, 1);
  }

  lemma IntQuotient(a: Q, i: int, g: int)
    requires Normal(a) && a.num != 0 && i != 0
    requires g != 0 && Abs(g) == Gcd(a.num, i)
    ensures
      var n, d := TruncDiv(a.num, g), a.den * TruncDiv(i, g);
      d != 0 && Quot(a, OfInt(i)) == (if d > 0 then Q(n, d) else Q(-n, -d))
      && (d > 0 <==> (i > 0 <==> g > 0))
  {
    hide Gcd;
    OfIntIsNormal(i);
    QuotientByCrossGcds(a, OfInt(i), g);
    OfIntIsNormal(a.den);
    GcdSymmetric(1, a.den);
    ExactDivision(a.den, 1);
    ExactDivision(1, 1);
  }
}
