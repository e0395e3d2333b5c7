/**
 The value of a rational: a numerator over a denominator, its normal form, and
 the textbook field operations that the in-place operators are proved to compute.
 */
module RationalValue {
  import opened Integers

  datatype Q = Q(num: int, den: int)

  /** The class invariant: positive denominator, nothing left to cancel. Zero is 0/1. */
  predicate Normal(q: Q) {
    q.den > 0 && Coprime(q.num, q.den)
  }

  /** `n/d` in normal form. */
  function Reduce(n: int, d: int): Q
    requires d != 0
  {
    GcdPositive(n, d);
    var g := Gcd(n, d);
    if d > 0 then Q(n / g, d / g) else Q(-(n / g), -(d / g))
  }

  function Plus(a: Q, b: Q): Q
    requires a.den != 0 && b.den != 0
  {
    ZeroProduct(a.den, b.den);
    Reduce(a.num * b.den + b.num * a.den, a.den * b.den)
  }

  function Negated(a: Q): Q {
    Q(-a.num, a.den)
  }

  function Minus(a: Q, b: Q): Q
    requires a.den != 0 && b.den != 0
  {
    Plus(a, Negated(b))
  }

  function Mult(a: Q, b: Q): Q
    requires a.den != 0 && b.den != 0
  {
    ZeroProduct(a.den, b.den);
    Reduce(a.num * b.num, a.den * b.den)
  }

  function Quot(a: Q, b: Q): Q
    requires a.den != 0 && b.den != 0 && b.num != 0
  {
    ZeroProduct(a.den, b.num);
    Reduce(a.num * b.den, a.den * b.num)
  }

  function OfInt(i: int): Q {
    Q(i, 1)
  }

  predicate Less(a: Q, b: Q) {
    a.num * b.den < b.num * a.den
  }

  // ---------------------------------------------------------------------------
  // Normal forms

  lemma ReduceIsNormal(n: int, d: int)
    requires d != 0
    ensures Normal(Reduce(n, d))
    ensures Reduce(n, d).num * d == n * Reduce(n, d).den
  {
    hide Gcd;
    var g := Gcd(n, d);
    GcdPositive(n, d);
    GcdDivides(n, d);
    var i := Cofactor(g, n);
    var j := Cofactor(g, d);
    ExactDivision(i, g);
    ExactDivision(j, g);
    CoprimeQuotients(n, d, i, j);
    CrossProduct(i, j, g);
    if d > 0 {
      SignOfFactor(j, g);
    } else {
      MulNeg(j, g);
      SignOfFactor(-j, g);
      CoprimeNegated(i, j);
      MulNeg(i, d);
      MulNeg(j, n);
    }
  }

  lemma CrossProduct(i: int, j: int, g: int)
    ensures i * (j * g) == (i * g) * j
  {
    MulAssoc(i, j, g);
    MulAssoc(i, g, j);
  }

  lemma SignOfFactor(j: int, g: int)
    requires g > 0 && j * g > 0
    ensures j > 0
  {
    if j <= 0 { MulLe(j, 0, g); }
  }

  /** A fraction with the same value as a normal form is an integer multiple of it, term by term. */
  lemma MultipleOfNormal(q: Q, n: int, d: int) returns (k: int)
    requires Normal(q) && d != 0
    requires q.num * d == n * q.den
    ensures n == k * q.num && d == k * q.den && k != 0
  {
    hide Gcd;
    MultipleDivides(n, q.den);
    CoprimeSymmetric(q.num, q.den);
    EuclidLemma(q.den, q.num, d);
    k := Cofactor(q.den, d);
    MulAssoc(q.num, k, q.den);
    Cancel(n, q.num * k, q.den);
  }

  /** A normal form has the least magnitudes of all fractions of its value. */
  lemma LeastTerms(q: Q, n: int, d: int)
    requires Normal(q) && d != 0
    requires q.num * d == n * q.den
    ensures Abs(q.num) <= Abs(n) && q.den <= Abs(d)
    ensures d > 0 ==> (n >= 0 <==> q.num >= 0)
  {
    hide Gcd;
    var k := MultipleOfNormal(q, n, d);
    MulAbs(k, q.num);
    MulAbs(k, q.den);
    MulLe(1, Abs(k), Abs(q.num));
    MulLe(1, Abs(k), q.den);
    if d > 0 {
      SignOfFactor(k, q.den);
      if q.num >= 0 { MulLe(0, k, q.num); } else { MulLe(1, k, -q.num); MulNeg(q.num, k); }
    }
  }

  /** Field-by-field equality of normal forms is equality of values. */
  lemma NormalFormsUnique(p: Q, q: Q)
    requires Normal(p) && Normal(q)
    ensures p == q <==> p.num * q.den == q.num * p.den
  {
    hide Gcd;
    if p.num * q.den == q.num * p.den {
      LeastTerms(p, q.num, q.den);
      LeastTerms(q, p.num, p.den);
      Cancel(p.num, q.num, p.den);
    }
  }

  lemma ReduceUnique(q: Q, n: int, d: int)
    requires Normal(q) && d != 0
    requires q.num * d == n * q.den
    ensures q == Reduce(n, d)
  {
    hide Gcd;
    var r := Reduce(n, d);
    ReduceIsNormal(n, d);
    var k := MultipleOfNormal(q, n, d);
    // r.num * (k * q.den) == (k * q.num) * r.den
    MulAssoc(k, q.num, r.den);
    CrossProduct(r.num, q.den, k);
    Cancel(r.num * q.den, q.num * r.den, k);
    NormalFormsUnique(r, q);
  }

  lemma NormalIsReduced(q: Q)
    requires Normal(q)
    ensures Reduce(q.num, q.den) == q
  {
    hide Gcd;
    ReduceUnique(q, q.num, q.den);
  }

  lemma ReduceScaled(k: int, n: int, d: int)
    requires k != 0 && d != 0
    ensures k * d != 0 && Reduce(k * n, k * d) == Reduce(n, d)
  {
    hide Gcd;
    ZeroProduct(k, d);
    var q := Reduce(n, d);
    ReduceIsNormal(n, d);
    assert q.num * (k * d) == (k * n) * q.den by {
      MulAssoc(k, n, q.den);
      CrossProduct(q.num, d, k);
    }
    ReduceUnique(q, k * n, k * d);
  }

  // ---------------------------------------------------------------------------
  // The field laws, as equalities of normal forms

  /** Sums may be taken on any representatives. */
  lemma PlusOfReduced(n1: int, d1: int, n2: int, d2: int)
    requires d1 != 0 && d2 != 0
    ensures d1 * d2 != 0
    ensures Reduce(n1, d1).den > 0 && Reduce(n2, d2).den > 0
    ensures Plus(Reduce(n1, d1), Reduce(n2, d2)) == Reduce(n1 * d2 + n2 * d1, d1 * d2)
  {
    hide Gcd;
    ZeroProduct(d1, d2);
    var p, q := Reduce(n1, d1), Reduce(n2, d2);
    ReduceIsNormal(n1, d1);
    ReduceIsNormal(n2, d2);
    var k := MultipleOfNormal(p, n1, d1);
    var l := MultipleOfNormal(q, n2, d2);
    ZeroProduct(k, l);
    ZeroProduct(p.den, q.den);
    ProductSwap(k, l, p.num, q.den);
    ProductSwap(l, k, q.num, p.den);
    ProductSwap(k, l, p.den, q.den);
    Distribute2(k * l, p.num * q.den, q.num * p.den);
    ReduceScaled(k * l, p.num * q.den + q.num * p.den, p.den * q.den);
  }

  lemma MultOfReduced(n1: int, d1: int, n2: int, d2: int)
    requires d1 != 0 && d2 != 0
    ensures d1 * d2 != 0
    ensures Reduce(n1, d1).den > 0 && Reduce(n2, d2).den > 0
    ensures Mult(Reduce(n1, d1), Reduce(n2, d2)) == Reduce(n1 * n2, d1 * d2)
  {
    hide Gcd;
    ZeroProduct(d1, d2);
    var p, q := Reduce(n1, d1), Reduce(n2, d2);
    ReduceIsNormal(n1, d1);
    ReduceIsNormal(n2, d2);
    var k := MultipleOfNormal(p, n1, d1);
    var l := MultipleOfNormal(q, n2, d2);
    ZeroProduct(k, l);
    ZeroProduct(p.den, q.den);
    ProductSwap(k, l, p.num, q.num);
    ProductSwap(k, l, p.den, q.den);
    ReduceScaled(k * l, p.num * q.num, p.den * q.den);
  }

  lemma ClosedUnderOperators(a: Q, b: Q)
    requires Normal(a) && Normal(b)
    ensures Normal(Plus(a, b)) && Normal(Minus(a, b)) && Normal(Mult(a, b))
    ensures b.num != 0 ==> Normal(Quot(a, b))
  {
    hide Gcd;
    ZeroProduct(a.den, b.den);
    ReduceIsNormal(a.num * b.den + b.num * a.den, a.den * b.den);
    ReduceIsNormal(a.num * b.den + (-b.num) * a.den, a.den * b.den);
    ReduceIsNormal(a.num * b.num, a.den * b.den);
    if b.num != 0 {
      ZeroProduct(a.den, b.num);
      ReduceIsNormal(a.num * b.den, a.den * b.num);
    }
  }

  lemma PlusAssociative(a: Q, b: Q, c: Q)
    requires Normal(a) && Normal(b) && Normal(c)
    ensures Plus(a, b).den > 0 && Plus(b, c).den > 0
    ensures Plus(Plus(a, b), c) == Plus(a, Plus(b, c))
  {
    hide Gcd;
    NormalIsReduced(a);
    NormalIsReduced(c);
    ZeroProduct(a.den, b.den);
    ZeroProduct(b.den, c.den);
    PlusOfReduced(a.num * b.den + b.num * a.den, a.den * b.den, c.num, c.den);
    PlusOfReduced(a.num, a.den, b.num * c.den + c.num * b.den, b.den * c.den);
    SumRegrouped(a.num, a.den, b.num, b.den, c.num, c.den);
  }

  lemma SumRegrouped(an: int, ad: int, bn: int, bd: int, cn: int, cd: int)
    ensures (an * bd + bn * ad) * cd + cn * (ad * bd) == an * (bd * cd) + (bn * cd + cn * bd) * ad
    ensures (ad * bd) * cd == ad * (bd * cd)
  {
    Distribute(an * bd, bn * ad, cd);
    Distribute(bn * cd, cn * bd, ad);
    MulAssoc(an, bd, cd);
    MulAssoc(bn, ad, cd);
    MulAssoc(bn, cd, ad);
    MulAssoc(cn, bd, ad);
    MulAssoc(ad, bd, cd);
  }

  lemma MultAssociative(a: Q, b: Q, c: Q)
    requires Normal(a) && Normal(b) && Normal(c)
    ensures Mult(a, b).den > 0 && Mult(b, c).den > 0
    ensures Mult(Mult(a, b), c) == Mult(a, Mult(b, c))
  {
    hide Gcd;
    NormalIsReduced(a);
    NormalIsReduced(c);
    ZeroProduct(a.den, b.den);
    ZeroProduct(b.den, c.den);
    MultOfReduced(a.num * b.num, a.den * b.den, c.num, c.den);
    MultOfReduced(a.num, a.den, b.num * c.num, b.den * c.den);
    MulAssoc(a.num, b.num, c.num);
    MulAssoc(a.den, b.den, c.den);
  }

  lemma OperatorsCommute(a: Q, b: Q)
    requires a.den != 0 && b.den != 0
    ensures Plus(a, b) == Plus(b, a) && Mult(a, b) == Mult(b, a)
  {
    hide Gcd;
    assert a.den * b.den == b.den * a.den;
    assert a.num * b.num == b.num * a.num;
  }

  lemma MultDistributes(a: Q, b: Q, c: Q)
    requires Normal(a) && Normal(b) && Normal(c)
    ensures Plus(b, c).den > 0 && Mult(a, b).den > 0 && Mult(a, c).den > 0
    ensures Mult(a, Plus(b, c)) == Plus(Mult(a, b), Mult(a, c))
  {
    hide Gcd;
    NormalIsReduced(a);
    ZeroProduct(b.den, c.den);
    ZeroProduct(a.den, b.den);
    ZeroProduct(a.den, c.den);
    ZeroProduct(a.den, b.den * c.den);
    var n, d := b.num * c.den + c.num * b.den, b.den * c.den;
    MultOfReduced(a.num, a.den, n, d);
    PlusOfReduced(a.num * b.num, a.den * b.den, a.num * c.num, a.den * c.den);
    ReduceScaled(a.den, a.num * n, a.den * d);
    ProductRegrouped(a.num, a.den, b.num, b.den, c.num, c.den);
  }

  lemma ProductRegrouped(an: int, ad: int, bn: int, bd: int, cn: int, cd: int)
    ensures (an * bn) * (ad * cd) + (an * cn) * (ad * bd) == ad * (an * (bn * cd + cn * bd))
    ensures (ad * bd) * (ad * cd) == ad * (ad * (bd * cd))
  {
    Distribute2(an, bn * cd, cn * bd);
    Distribute2(ad, an * (bn * cd), an * (cn * bd));
    ProductSwap(an, ad, bn, cd);
    ProductSwap(an, ad, cn, bd);
    MulAssoc(ad, an, bn * cd);
    MulAssoc(ad, an, cn * bd);
    ProductSwap(ad, ad, bd, cd);
    MulAssoc(ad, ad, bd * cd);
  }

  /** Subtraction undoes addition. */
  lemma MinusUndoesPlus(a: Q, b: Q)
    requires Normal(a) && Normal(b)
    ensures Plus(a, b).den > 0 && Minus(Plus(a, b), b) == a
  {
    hide Gcd;
    GcdNegate(b.num, b.den);
    NormalIsReduced(Negated(b));
    ZeroProduct(a.den, b.den);
    var n, d := a.num * b.den + b.num * a.den, a.den * b.den;
    PlusOfReduced(n, d, -b.num, b.den);
    DifferenceCollapses(a.num, a.den, b.num, b.den);
    ZeroProduct(b.den, b.den);
    ReduceScaled(b.den * b.den, a.num, a.den);
    NormalIsReduced(a);
  }

  lemma DifferenceCollapses(an: int, ad: int, bn: int, bd: int)
    ensures (an * bd + bn * ad) * bd + (-bn) * (ad * bd) == (bd * bd) * an
    ensures (ad * bd) * bd == (bd * bd) * ad
  {
    Distribute(an * bd, bn * ad, bd);
    MulAssoc(an, bd, bd);
    MulAssoc(bn, ad, bd);
    MulNeg(bn, ad * bd);
    MulAssoc(ad, bd, bd);
  }

  lemma QuotOfReduced(n: int, d: int, b: Q)
    requires d != 0 && b.num != 0
    ensures d * b.num != 0 && Reduce(n, d).den > 0
    ensures b.den != 0 ==> Quot(Reduce(n, d), b) == Reduce(n * b.den, d * b.num)
  {
    hide Gcd;
    ZeroProduct(d, b.num);
    var m := Reduce(n, d);
    ReduceIsNormal(n, d);
    ZeroProduct(m.den, b.num);
    var k := MultipleOfNormal(m, n, d);
    MulAssoc(k, m.num, b.den);
    MulAssoc(k, m.den, b.num);
    ReduceScaled(k, m.num * b.den, m.den * b.num);
  }

  /** Division undoes multiplication. */
  lemma QuotUndoesMult(a: Q, b: Q)
    requires Normal(a) && Normal(b) && b.num != 0
    ensures Mult(a, b).den > 0 && Quot(Mult(a, b), b) == a
  {
    hide Gcd;
    ZeroProduct(a.den, b.den);
    ZeroProduct(b.den, b.num);
    QuotOfReduced(a.num * b.num, a.den * b.den, b);
    QuotientCollapses(a.num, a.den, b.num, b.den);
    ReduceScaled(b.num * b.den, a.num, a.den);
    NormalIsReduced(a);
  }

  lemma QuotientCollapses(an: int, ad: int, bn: int, bd: int)
    ensures (an * bn) * bd == (bn * bd) * an
    ensures (ad * bd) * bn == (bn * bd) * ad
  {
    MulAssoc(an, bn, bd);
    MulAssoc(ad, bd, bn);
  }

  // ---------------------------------------------------------------------------
  // The order

  lemma Trichotomy(a: Q, b: Q)
    requires Normal(a) && Normal(b)
    ensures Less(a, b) <==> !Less(b, a) && a != b
  {
    hide Gcd;
    NormalFormsUnique(a, b);
  }

  lemma LessTransitive(a: Q, b: Q, c: Q)
    requires a.den > 0 && b.den > 0 && c.den > 0
    requires Less(a, b) && Less(b, c)
    ensures Less(a, c)
  {
    // scale both facts to the common denominator, then cancel b.den
    MulLt(a.num * b.den, b.num * a.den, c.den);
    MulLt(b.num * c.den, c.num * b.den, a.den);
    var x, y := a.num * c.den, c.num * a.den;
    assert x * b.den == (a.num * b.den) * c.den by { ProductSwap3(a.num, b.den, c.den); }
    assert y * b.den == (c.num * b.den) * a.den by { ProductSwap3(c.num, b.den, a.den); }
    assert (b.num * a.den) * c.den == (b.num * c.den) * a.den by { ProductSwap3(b.num, a.den, c.den); }
    if x >= y { MulLe(y, x, b.den); }
  }

  lemma MulLt(x: int, y: int, d: int)
    requires x < y && 0 < d
    ensures x * d < y * d
  {
    MulLe(x + 1, y, d);
    Distribute(x, 1, d);
  }

  /** Adding the same rational to both sides keeps the order. */
  lemma PlusKeepsLess(a: Q, b: Q, c: Q)
    requires Normal(a) && Normal(b) && Normal(c) && Less(a, b)
    ensures Less(Plus(a, c), Plus(b, c))
  {
    hide Gcd;
    ZeroProduct(a.den, c.den);
    ZeroProduct(b.den, c.den);
    var n1, d1 := a.num * c.den + c.num * a.den, a.den * c.den;
    var n2, d2 := b.num * c.den + c.num * b.den, b.den * c.den;
    ReduceIsNormal(n1, d1);
    ReduceIsNormal(n2, d2);
    MulLt(0, a.den, c.den);
    MulLt(0, b.den, c.den);
    MulLt(0, c.den, c.den);
    MulLt(a.num * b.den, b.num * a.den, c.den * c.den);
    SumOrder(a.num, a.den, b.num, b.den, c.num, c.den);
    LessOfReduced(n1, d1, n2, d2);
  }

  lemma SumOrder(an: int, ad: int, bn: int, bd: int, cn: int, cd: int)
    ensures (bn * cd + cn * bd) * (ad * cd) - (an * cd + cn * ad) * (bd * cd)
         == (bn * ad) * (cd * cd) - (an * bd) * (cd * cd)
  {
    Distribute(bn * cd, cn * bd, ad * cd);
    Distribute(an * cd, cn * ad, bd * cd);
    ProductSwap(bn, cd, ad, cd);
    ProductSwap(bn, ad, cd, cd);
    ProductSwap(an, cd, bd, cd);
    ProductSwap(cn, bd, ad, cd);
    ProductSwap(cn, ad, bd, cd);
  }

  lemma LessOfReduced(n1: int, d1: int, n2: int, d2: int)
    requires d1 > 0 && d2 > 0
    ensures Less(Reduce(n1, d1), Reduce(n2, d2)) <==> n1 * d2 < n2 * d1
  {
    hide Gcd;
    var p, q := Reduce(n1, d1), Reduce(n2, d2);
    ReduceIsNormal(n1, d1);
    ReduceIsNormal(n2, d2);
    var k := MultipleOfNormal(p, n1, d1);
    var l := MultipleOfNormal(q, n2, d2);
    SignOfFactor(k, p.den);
    SignOfFactor(l, q.den);
    MulLt(0, k, l);
    ProductSwap(k, l, p.num, q.den);
    ProductSwap(l, k, q.num, p.den);
    var x, y, m := p.num * q.den, q.num * p.den, k * l;
    if x < y { MulLt(x, y, m); } else { MulLe(y, x, m); }
  }
}
