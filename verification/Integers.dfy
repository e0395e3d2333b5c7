/**
 Integer arithmetic shared by the rational-number model: C++ division (which
 truncates toward zero), divisibility, the greatest common divisor with its
 Bezout coefficients, and the coprimality facts the rational operators rest on.
 */
module Integers {

  function Abs(x: int): nat {
    if x < 0 then -x else x
  }

  // ---------------------------------------------------------------------------
  // C++ division: the quotient truncates, the remainder takes the dividend's sign.

  function TruncDiv(a: int, b: int): int
    requires b != 0
  {
    if a >= 0 then a / b else -((-a) / b)
  }

  function TruncRem(a: int, b: int): int
    requires b != 0
  {
    if a >= 0 then a % b else -((-a) % b)
  }

  lemma TruncDivRem(a: int, b: int)
    requires b != 0
    ensures a == TruncDiv(a, b) * b + TruncRem(a, b)
    ensures Abs(TruncRem(a, b)) < Abs(b)
    ensures a >= 0 ==> TruncRem(a, b) >= 0
    ensures a <= 0 ==> TruncRem(a, b) <= 0
  {
    if a >= 0 {
      assert a == (a / b) * b + a % b;
    } else {
      assert -a == ((-a) / b) * b + (-a) % b;
      MulNeg((-a) / b, b);
    }
  }

  lemma MulNeg(x: int, y: int)
    ensures (-x) * y == -(x * y)
  {
  }

  /** Only one quotient leaves a remainder in `0..d-1`. */
  lemma QuotientUnique(d: int, q1: int, r1: int, q2: int, r2: int)
    requires 0 <= r1 < d && 0 <= r2 < d
    requires q1 * d + r1 == q2 * d + r2
    ensures q1 == q2 && r1 == r2
  {
    if q1 < q2 {
      MulLe(q1 + 1, q2, d);
      assert false;
    } else if q2 < q1 {
      MulLe(q2 + 1, q1, d);
      assert false;
    }
  }

  lemma MulLe(x: int, y: int, d: int)
    requires x <= y && 0 <= d
    ensures x * d <= y * d
  {
  }

  // ---------------------------------------------------------------------------
  // Divisibility

  function Times(k: int, d: int): int {
    k * d
  }

  ghost predicate Divides(d: int, n: int) {
    exists k: int :: Times(k, d) == n
  }

  lemma MultipleDivides(k: int, d: int)
    ensures Divides(d, k * d)
    ensures Divides(d, d * k)
  {
    assert Times(k, d) == k * d;
  }

  lemma Cofactor(d: int, n: int) returns (k: int)
    requires Divides(d, n)
    ensures n == k * d
  {
    k :| Times(k, d) == n;
  }

  lemma DividesCombination(d: int, a: int, b: int, x: int, y: int)
    requires Divides(d, a) && Divides(d, b)
    ensures Divides(d, x * a + y * b)
  {
    var i := Cofactor(d, a);
    var j := Cofactor(d, b);
    calc {
      x * a + y * b;
      x * (i * d) + y * (j * d);
      (x * i) * d + (y * j) * d;
      (x * i + y * j) * d;
    }
    MultipleDivides(x * i + y * j, d);
  }

  lemma DividesTrans(a: int, b: int, c: int)
    requires Divides(a, b) && Divides(b, c)
    ensures Divides(a, c)
  {
    var i := Cofactor(a, b);
    var j := Cofactor(b, c);
    assert c == j * (i * a) == (j * i) * a;
    MultipleDivides(j * i, a);
  }

  lemma DividesBound(d: int, n: int)
    requires Divides(d, n) && n != 0
    ensures d != 0 && Abs(d) <= Abs(n)
  {
    var k := Cofactor(d, n);
    assert k != 0 && d != 0;
    MulAbs(k, d);
    MulLe(1, Abs(k), Abs(d));
  }

  lemma MulAbs(x: int, y: int)
    ensures Abs(x * y) == Abs(x) * Abs(y)
  {
    if x >= 0 && y >= 0 {
    } else if x < 0 && y < 0 {
      assert x * y == (-x) * (-y);
    } else if x < 0 {
      assert (-x) * y == -(x * y);
    } else {
      assert x * (-y) == -(x * y);
    }
  }

  lemma DividesAntisymmetric(a: nat, b: nat)
    requires Divides(a, b) && Divides(b, a)
    ensures a == b
  {
    if a == 0 {
      var k := Cofactor(a, b);
    } else if b == 0 {
      var k := Cofactor(b, a);
    } else {
      DividesBound(a, b);
      DividesBound(b, a);
    }
  }

  /** Dividing a multiple of `d` by `d` is exact, whichever way division rounds. */
  lemma ExactDivision(k: int, d: int)
    requires d != 0
    ensures TruncDiv(k * d, d) == k
    ensures (k * d) / d == k
  {
    var n := k * d;
    TruncDivRem(n, d);
    var q, r := TruncDiv(n, d), TruncRem(n, d);
    SmallMultiple(k - q, d, r);
    assert n == (n / d) * d + n % d;
    SmallMultiple(k - n / d, d, n % d);
  }

  lemma Cancel(x: int, y: int, d: int)
    requires d != 0 && x * d == y * d
    ensures x == y
  {
    Distribute(x - y, y, d);
    SmallMultiple(x - y, d, 0);
  }

  lemma SmallMultiple(k: int, d: int, r: int)
    requires d != 0 && Abs(r) < Abs(d) && k * d == r
    ensures k == 0
  {
    if k != 0 {
      MulAbs(k, d);
      MulLe(1, Abs(k), Abs(d));
      assert false;
    }
  }

  // ---------------------------------------------------------------------------
  // Greatest common divisor

  /** By subtraction, the simplest of definitions: the faster algorithms are proved against it. */
  function GcdOfNats(a: nat, b: nat): nat
    decreases a + b
  {
    if a == 0 then b
    else if b == 0 then a
    else if a >= b then GcdOfNats(a - b, b)
    else GcdOfNats(a, b - a)
  }

  function Gcd(a: int, b: int): nat {
    GcdOfNats(Abs(a), Abs(b))
  }

  lemma {:induction false} BezoutOfNats(a: nat, b: nat) returns (x: int, y: int)
    ensures x * a + y * b == GcdOfNats(a, b)
    decreases a + b
  {
    if a == 0 {
      return 0, 1;
    } else if b == 0 {
      return 1, 0;
    } else if a >= b {
      x, y := BezoutOfNats(a - b, b);
      SubtractCertificate(a, b, x, y);
      y := y - x;
    } else {
      x, y := BezoutOfNats(a, b - a);
      SubtractCertificate(b, a, y, x);
      x := x - y;
    }
  }

  lemma SubtractCertificate(a: int, b: int, x: int, y: int)
    ensures x * (a - b) + y * b == x * a + (y - x) * b
  {
  }

  lemma {:induction false} GcdOfNatsDivides(a: nat, b: nat)
    ensures Divides(GcdOfNats(a, b), a) && Divides(GcdOfNats(a, b), b)
    decreases a + b
  {
    var g := GcdOfNats(a, b);
    MultipleDivides(0, g);
    MultipleDivides(1, g);
    if a == 0 || b == 0 {
    } else if a >= b {
      GcdOfNatsDivides(a - b, b);
      DividesCombination(g, a - b, b, 1, 1);
    } else {
      GcdOfNatsDivides(a, b - a);
      DividesCombination(g, a, b - a, 1, 1);
    }
  }

  lemma Bezout(a: int, b: int) returns (x: int, y: int)
    ensures x * a + y * b == Gcd(a, b)
  {
    hide GcdOfNats;
    x, y := BezoutOfNats(Abs(a), Abs(b));
    if a < 0 {
      MulNeg(x, -a);
      x := -x;
    }
    if b < 0 {
      MulNeg(y, -b);
      y := -y;
    }
  }

  lemma GcdDivides(a: int, b: int)
    ensures Divides(Gcd(a, b), a) && Divides(Gcd(a, b), b)
  {
    hide GcdOfNats;
    GcdOfNatsDivides(Abs(a), Abs(b));
    AbsDivides(Gcd(a, b), Abs(a));
    AbsDivides(Gcd(a, b), Abs(b));
  }

  /** The greatest common divisor is the one common divisor that is a combination of its arguments. */
  lemma GcdFromBezout(g: nat, a: int, b: int, x: int, y: int)
    requires Divides(g, a) && Divides(g, b)
    requires x * a + y * b == g
    ensures Gcd(a, b) == g
  {
    GcdDivides(a, b);
    DividesCombination(Gcd(a, b), a, b, x, y);
    var u, v := Bezout(a, b);
    DividesCombination(g, a, b, u, v);
    DividesAntisymmetric(g, Gcd(a, b));
  }

  /** Every common divisor divides the greatest common divisor. */
  lemma CommonDivisor(d: int, a: int, b: int)
    requires Divides(d, a) && Divides(d, b)
    ensures Divides(d, Gcd(a, b))
  {
    var x, y := Bezout(a, b);
    DividesCombination(d, a, b, x, y);
  }

  lemma GcdPositive(a: int, b: int)
    ensures Gcd(a, b) > 0 <==> a != 0 || b != 0
    ensures a != 0 ==> Gcd(a, b) <= Abs(a)
    ensures b != 0 ==> Gcd(a, b) <= Abs(b)
  {
    GcdDivides(a, b);
    if a != 0 { DividesBound(Gcd(a, b), a); }
    if b != 0 { DividesBound(Gcd(a, b), b); }
  }

  lemma GcdSymmetric(a: int, b: int)
    ensures Gcd(a, b) == Gcd(b, a)
  {
    GcdDivides(a, b);
    var x, y := Bezout(a, b);
    GcdFromBezout(Gcd(a, b), b, a, y, x);
  }

  lemma GcdZero(a: int)
    ensures Gcd(a, 0) == Gcd(0, a) == Abs(a)
  {
    GcdSymmetric(a, 0);
  }

  lemma GcdNegate(a: int, b: int)
    ensures Gcd(-a, b) == Gcd(a, b)
  {
  }

  lemma GcdAbs(a: int, b: int)
    ensures Gcd(Abs(a), Abs(b)) == Gcd(a, b)
  {
  }

  /** Adding a multiple of one argument to the other changes nothing. */
  lemma GcdShift(a: int, b: int, k: int)
    ensures Gcd(a + k * b, b) == Gcd(a, b)
  {
    hide Gcd;
    var g := Gcd(a, b);
    GcdDivides(a, b);
    var x, y := Bezout(a, b);
    DividesCombination(g, a, b, 1, k);
    assert a + k * b == 1 * a + k * b;
    ShiftCertificate(a, b, k, x, y);
    GcdFromBezout(g, a + k * b, b, x, y - x * k);
  }

  lemma ShiftCertificate(a: int, b: int, k: int, x: int, y: int)
    ensures x * (a + k * b) + (y - x * k) * b == x * a + y * b
  {
    Distribute2(x, a, k * b);
    MulAssoc(x, k, b);
    Distribute(y, -(x * k), b);
    MulNeg(x * k, b);
  }

  // ---------------------------------------------------------------------------
  // Coprimality

  predicate Coprime(a: int, b: int) {
    Gcd(a, b) == 1
  }

  lemma CoprimeFromBezout(a: int, b: int, x: int, y: int)
    requires x * a + y * b == 1
    ensures Coprime(a, b)
  {
    MultipleDivides(a, 1);
    MultipleDivides(b, 1);
    GcdFromBezout(1, a, b, x, y);
  }

  lemma CoprimeSymmetric(a: int, b: int)
    ensures Coprime(a, b) <==> Coprime(b, a)
  {
    GcdSymmetric(a, b);
  }

  lemma CoprimeNegated(a: int, b: int)
    requires Coprime(a, b)
    ensures Coprime(-a, -b)
  {
    hide Gcd;
    GcdNegate(a, b);
    GcdSymmetric(-a, b);
    GcdNegate(b, -a);
    GcdSymmetric(-b, -a);
  }

  lemma CoprimeProduct(a: int, b: int, c: int)
    requires Coprime(a, c) && Coprime(b, c)
    ensures Coprime(a * b, c)
  {
    var x, y := Bezout(a, c);
    var u, v := Bezout(b, c);
    BezoutProduct(a, b, c, x, y, u, v);
    CoprimeFromBezout(a * b, c, x * u, x * a * v + y * (u * b + v * c));
  }

  lemma BezoutProduct(a: int, b: int, c: int, x: int, y: int, u: int, v: int)
    requires x * a + y * c == 1 && u * b + v * c == 1
    ensures (x * u) * (a * b) + (x * a * v + y * (u * b + v * c)) * c == 1
  {
    var p := x * a;
    assert (x * u) * (a * b) == p * (u * b) by { ProductSwap(x, u, a, b); }
    Distribute(p * v, y, c);
    MulAssoc(p, v, c);
    Distribute2(p, u * b, v * c);
  }

  lemma ProductSwap(x: int, u: int, a: int, b: int)
    ensures (x * u) * (a * b) == (x * a) * (u * b)
  {
    MulAssoc(x, u, a * b);
    MulAssoc(x, a, u * b);
    MulAssoc(u, a, b);
    MulAssoc(a, u, b);
  }

  lemma ProductSwap3(k: int, b: int, h: int)
    ensures (k * b) * h == (k * h) * b == b * (k * h)
  {
    MulAssoc(k, b, h);
    MulAssoc(k, h, b);
  }

  lemma MulAssoc(x: int, y: int, z: int)
    ensures (x * y) * z == x * (y * z)
  {
  }

  lemma Distribute(x: int, y: int, z: int)
    ensures (x + y) * z == x * z + y * z
  {
  }

  lemma Distribute2(x: int, y: int, z: int)
    ensures x * (y + z) == x * y + x * z
  {
  }

  lemma CoprimeDivisor(d: int, a: int, c: int)
    requires Divides(d, a) && Coprime(a, c)
    ensures Coprime(d, c)
  {
    var k := Cofactor(d, a);
    var x, y := Bezout(a, c);
    assert x * a == x * (k * d) == (x * k) * d;
    CoprimeFromBezout(d, c, x * k, y);
  }

  lemma CoprimeDivisor2(a: int, d: int, c: int)
    requires Divides(d, c) && Coprime(a, c)
    ensures Coprime(a, d)
  {
    CoprimeSymmetric(a, c);
    CoprimeDivisor(d, c, a);
    CoprimeSymmetric(a, d);
  }

  /** Dividing both arguments by their greatest common divisor leaves coprime quotients. */
  lemma CoprimeQuotients(a: int, b: int, i: int, j: int)
    requires a != 0 || b != 0
    requires a == i * Gcd(a, b) && b == j * Gcd(a, b)
    ensures Coprime(i, j)
  {
    var g := Gcd(a, b);
    GcdPositive(a, b);
    var x, y := Bezout(a, b);
    MulAssoc(x, i, g);
    MulAssoc(y, j, g);
    Distribute(x * i, y * j, g);
    Cancel(x * i + y * j, 1, g);
    CoprimeFromBezout(i, j, x, y);
  }

  /** Euclid's lemma. */
  lemma EuclidLemma(a: int, b: int, c: int)
    requires Coprime(a, b) && Divides(a, b * c)
    ensures Divides(a, c)
  {
    var x, y := Bezout(a, b);
    calc {
      c;
      c * (x * a + y * b);
      c * (x * a) + c * (y * b);
      { assert c * (x * a) == (c * x) * a; assert c * (y * b) == y * (b * c); }
      (c * x) * a + y * (b * c);
    }
    MultipleDivides(1, a);
    DividesCombination(a, a, b * c, c * x, y);
  }

  /** Two coprime divisors of `n` divide it together. */
  lemma CoprimeDivisorsMultiply(a: int, b: int, n: int)
    requires Coprime(a, b) && Divides(a, n) && Divides(b, n)
    ensures Divides(a * b, n)
  {
    hide Gcd;
    var k := Cofactor(b, n);
    assert n == b * k;
    EuclidLemma(a, b, k);
    var j := Cofactor(a, k);
    MulAssoc(j, a, b);
    MultipleDivides(j, a * b);
  }

  lemma CoprimeToZero(b: int)
    requires Coprime(0, b)
    ensures Abs(b) == 1
  {
    assert Divides(b, 0) by { assert Times(0, b) == 0; }
    MultipleDivides(1, b);
    CommonDivisor(b, 0, b);
    DividesBound(b, 1);
  }

  // ---------------------------------------------------------------------------
  // Least common multiple

  function Lcm(a: int, b: int): nat {
    if Gcd(a, b) == 0 then 0 else Abs((a / Gcd(a, b)) * b)
  }

  lemma LcmIsMultiple(a: int, b: int)
    ensures Divides(a, Lcm(a, b)) && Divides(b, Lcm(a, b))
    ensures Lcm(a, b) == 0 <==> a == 0 || b == 0
  {
    GcdPositive(a, b);
    var g := Gcd(a, b);
    if g == 0 {
      MultipleDivides(0, 0);
    } else {
      GcdDivides(a, b);
      var i := Cofactor(g, a);
      var j := Cofactor(g, b);
      ExactDivision(i, g);
      var m := i * b;
      MultipleDivides(i, b);
      assert m == j * a by { MulAssoc(i, j, g); MulAssoc(j, i, g); }
      MultipleDivides(j, a);
      AbsDivides(a, m);
      AbsDivides(b, m);
      MulAbs(i, b);
      MulAbs(i, g);
      ZeroProduct(i, b);
      ZeroProduct(i, g);
    }
  }

  lemma AbsDivides(d: int, m: int)
    requires Divides(d, m)
    ensures Divides(d, Abs(m)) && Divides(d, -m)
  {
    var k := Cofactor(d, m);
    MulNeg(k, d);
    MultipleDivides(-k, d);
  }

  lemma AbsDividesOf(d: int, m: int)
    requires Divides(d, m)
    ensures Divides(Abs(d), m)
  {
    var k := Cofactor(d, m);
    assert m == (-k) * (-d);
    MultipleDivides(k, d);
    MultipleDivides(-k, -d);
  }

  lemma ZeroProduct(x: int, y: int)
    ensures x * y == 0 <==> x == 0 || y == 0
  {
  }

  /** Every common multiple is a multiple of the least common multiple. */
  lemma CommonMultiple(a: int, b: int, m: int)
    requires Divides(a, m) && Divides(b, m)
    ensures Divides(Lcm(a, b), m)
  {
    var g := Gcd(a, b);
    GcdPositive(a, b);
    if g != 0 {
      GcdDivides(a, b);
      var i := Cofactor(g, a);
      var j := Cofactor(g, b);
      ExactDivision(i, g);
      CoprimeQuotients(a, b, i, j);
      // m == p * g with i and j both dividing p
      DividesTrans(g, a, m);
      var p := Cofactor(g, m);
      CancelDivisor(i, p, g);
      CancelDivisor(j, p, g);
      CoprimeDivisorsMultiply(i, j, p);
      var k := Cofactor(i * j, p);
      assert m == k * (i * b) by { MulAssoc(k, i * j, g); MulAssoc(i, j, g); }
      MultipleDivides(k, i * b);
      AbsDividesOf(i * b, m);
    } else {
      var k := Cofactor(a, m);
    }
  }

  lemma CancelDivisor(i: int, p: int, g: int)
    requires g != 0 && Divides(i * g, p * g)
    ensures Divides(i, p)
  {
    var k := Cofactor(i * g, p * g);
    MulAssoc(k, i, g);
    Cancel(p, k * i, g);
    MultipleDivides(k, i);
  }
}
