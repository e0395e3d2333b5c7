/**
 The integer types a rational can be built on, and the integer gcd and lcm it calls.

 `Signed(max)` is a two's-complement type with values `-max-1..max`; `Unbounded`
 stands for an arbitrary-precision class type. Sums, products and quotients demand
 that the exact result fits, as C++ does of its callers. Negation and the casts
 between signed and unsigned wrap, so negating the minimum keeps the minimum.
 */
module CommonFactor {
  import opened Integers

  datatype IntType = Unbounded | Signed(max: nat) {

    predicate Fits(x: int) {
      Unbounded? || (-1 <= x + max && x <= max)
    }

    function Add(x: int, y: int): (z: int)
      requires Fits(x) && Fits(y) && Fits(x + y)
      ensures Fits(z)
    {
      x + y
    }

    function Sub(x: int, y: int): (z: int)
      requires Fits(x) && Fits(y) && Fits(x - y)
      ensures Fits(z)
    {
      x - y
    }

    function Mul(x: int, y: int): (z: int)
      requires Fits(x) && Fits(y) && Fits(x * y)
      ensures Fits(z)
    {
      x * y
    }

    function Div(x: int, y: int): (z: int)
      requires Fits(x) && Fits(y) && y != 0 && Fits(TruncDiv(x, y))
      ensures Fits(z)
    {
      TruncDiv(x, y)
    }

    function Rem(x: int, y: int): (z: int)
      requires Fits(x) && Fits(y) && y != 0 && Fits(TruncRem(x, y))
      ensures Fits(z)
    {
      TruncRem(x, y)
    }

    function Neg(x: int): (z: int)
      requires Fits(x)
      ensures Fits(z)
    {
      if Fits(-x) then -x else x
    }

    function ToUnsigned(x: int): nat
      requires Fits(x) && (Unbounded? ==> x >= 0)
    {
      if x >= 0 then x else x + 2 * max + 2
    }

    function ToSigned(u: nat): (z: int)
      requires Unbounded? || u <= 2 * max + 1
      ensures Fits(z)
    {
      if Fits(u) then u else u - (2 * max + 2)
    }
  }

  // ---------------------------------------------------------------------------
  // gcd

  lemma GcdTruncRem(a: int, b: int)
    requires b != 0
    ensures Gcd(TruncRem(a, b), b) == Gcd(a, b)
  {
    TruncDivRem(a, b);
    MulNeg(TruncDiv(a, b), b);
    GcdShift(a, b, -TruncDiv(a, b));
  }

  /** gcd_euclidean: reduces each argument modulo the other until one is zero. */
  method GcdEuclidean(a0: int, b0: int) returns (g: int)
    ensures Abs(g) == Gcd(a0, b0)
  {
    var a, b := a0, b0;
    while true
      invariant Gcd(a, b) == Gcd(a0, b0)
      decreases Abs(a) + Abs(b)
    {
      if a == 0 {
        GcdSymmetric(a, b);
        return b;
      }
      GcdSymmetric(a, b);
      GcdTruncRem(b, a);
      TruncDivRem(b, a);
      RemNotLarger(b, a);
      b := TruncRem(b, a);
      if b == 0 {
        GcdSymmetric(a, b);
        return a;
      }
      GcdSymmetric(a, b);
      GcdTruncRem(a, b);
      TruncDivRem(a, b);
      a := TruncRem(a, b);
    }
  }

  lemma RemNotLarger(a: int, b: int)
    requires b != 0
    ensures Abs(TruncRem(a, b)) <= Abs(a)
  {
    var x := Abs(a);
    assert x == (x / b) * b + x % b;
    if x < Abs(b) {
      SmallRemainder(x, b);
    } else {
      assert x % b < Abs(b);
    }
  }

  lemma SmallRemainder(x: nat, b: int)
    requires b != 0 && x < Abs(b)
    ensures x % b == x
  {
    var q, r := x / b, x % b;
    assert x == q * b + r;
    SmallMultiple(q, b, x - r);
  }

  /** gcd_integer: the magnitude of gcd_euclidean. */
  method GcdInteger(a: int, b: int) returns (g: int)
    ensures g == Gcd(a, b)
  {
    var result := GcdEuclidean(a, b);
    g := if result < 0 then -result else result;
  }

  function Pow2(n: nat): nat {
    if n == 0 then 1 else 2 * Pow2(n - 1)
  }

  lemma GcdDouble(a: int, b: int)
    ensures Gcd(2 * a, 2 * b) == 2 * Gcd(a, b)
  {
    var g := Gcd(a, b);
    GcdDivides(a, b);
    var i := Cofactor(g, a);
    var j := Cofactor(g, b);
    MultipleDivides(i, 2 * g);
    MultipleDivides(j, 2 * g);
    MulAssoc(i, 2, g);
    MulAssoc(j, 2, g);
    MulAssoc(2, i, g);
    MulAssoc(2, j, g);
    var x, y := Bezout(a, b);
    MulAssoc(x, 2, a);
    MulAssoc(y, 2, b);
    MulAssoc(2, x, a);
    MulAssoc(2, y, b);
    GcdFromBezout(2 * g, 2 * a, 2 * b, x, y);
  }

  /** A factor of two in one argument does not count when the other is odd. */
  lemma GcdHalve(h: int, b: int)
    requires b % 2 == 1
    ensures Gcd(2 * h, b) == Gcd(h, b)
  {
    hide Gcd;
    var g := Gcd(h, b);
    GcdDivides(h, b);
    var x, y := Bezout(h, b);
    DividesCombination(g, h, b, 2, 0);
    if x % 2 == 0 {
      HalveCertificate(x / 2, h, b, y, 0);
      GcdFromBezout(g, 2 * h, b, x / 2, y);
    } else {
      // an odd coefficient of h becomes even by borrowing b times h
      var z := (x + b) / 2;
      HalveCertificate(z, h, b, y - h, 1);
      assert 2 * z - b == x;
      GcdFromBezout(g, 2 * h, b, z, y - h);
    }
  }

  lemma HalveCertificate(z: int, h: int, b: int, y: int, k: int)
    ensures z * (2 * h) + y * b == (2 * z - k * b) * h + (y + k * h) * b
  {
    Distribute(2 * z, -(k * b), h);
    Distribute(y, k * h, b);
    MulNeg(k * b, h);
    ProductSwap3(k, b, h);
    ProductSwap3(2, z, h);
  }

  /** Shifts the factors of two out of `x`. */
  method StripTwos(x0: nat, odd: nat) returns (x: nat)
    requires x0 > 0 && odd % 2 == 1
    ensures 0 < x <= x0 && x % 2 == 1
    ensures Gcd(x, odd) == Gcd(x0, odd)
  {
    hide Gcd;
    x := x0;
    while x % 2 == 0
      invariant 0 < x <= x0
      decreases x
      invariant Gcd(x, odd) == Gcd(x0, odd)
    {
      GcdHalve(x / 2, odd);
      x := x / 2;
    }
  }

  /** Shifts out the common factors of two. */
  method ShiftCommonTwos(u0: nat, v0: nat) returns (u: nat, v: nat, shifts: nat)
    requires u0 > 0 && v0 > 0
    ensures u > 0 && v > 0 && (u % 2 == 1 || v % 2 == 1)
    ensures Gcd(u, v) * Pow2(shifts) == Gcd(u0, v0)
  {
    hide Gcd;
    u, v, shifts := u0, v0, 0;
    while u % 2 == 0 && v % 2 == 0
      invariant u > 0 && v > 0
      invariant Gcd(u, v) * Pow2(shifts) == Gcd(u0, v0)
      decreases u
    {
      GcdDouble(u / 2, v / 2);
      ProductSwap3(2, Gcd(u / 2, v / 2), Pow2(shifts));
      MulAssoc(2, Pow2(shifts), Gcd(u / 2, v / 2));
      u, v, shifts := u / 2, v / 2, shifts + 1;
    }
  }

  /** Whittles down two values, not both even, through their differences. */
  method Whittle(u: nat, v: nat) returns (g: nat)
    requires u > 0 && v > 0 && (u % 2 == 1 || v % 2 == 1)
    ensures g == Gcd(u, v)
  {
    hide Gcd;
    // r[1 - which] stays odd: start with the still-even one, if any
    var r := new nat[2];
    r[0], r[1] := u, v;
    var which := u % 2;
    GcdSymmetric(u, v);
    while true
      invariant 0 <= which <= 1 && r[which] > 0 && r[1 - which] % 2 == 1
      invariant Gcd(r[which], r[1 - which]) == Gcd(u, v)
      decreases r[0] + r[1]
    {
      r[which] := StripTwos(r[which], r[1 - which]);
      if r[1 - which] > r[which] {
        GcdSymmetric(r[0], r[1]);
        which := 1 - which;
      }
      GcdSubtract(r[which], r[1 - which]);
      r[which] := r[which] - r[1 - which];
      if r[which] == 0 {
        break;
      }
    }
    GcdZero(r[1 - which]);
    g := r[1 - which];
  }

  /** gcd_binary: on unsigned values, by halving and subtracting. */
  method GcdBinary(u0: nat, v0: nat) returns (g: nat)
    ensures g == Gcd(u0, v0)
  {
    if u0 == 0 || v0 == 0 {
      GcdZero(u0);
      GcdZero(v0);
      return u0 + v0;
    }
    var u, v, shifts := ShiftCommonTwos(u0, v0);
    g := Whittle(u, v);
    g := g * Pow2(shifts);
  }

  lemma GcdSubtract(a: int, b: int)
    ensures Gcd(a - b, b) == Gcd(a, b)
  {
    MulNeg(1, b);
    GcdShift(a, b, -1);
  }

  /** integer::gcd: binary on the unsigned magnitudes for built-in types, Euclidean for class types. */
  method IntegerGcd(T: IntType, a: int, b: int) returns (g: int)
    requires T.Fits(a) && T.Fits(b)
    ensures T.Unbounded? || Gcd(a, b) <= T.max + 1
    ensures g == T.ToSigned(Gcd(a, b))
  {
    GcdAbs(a, b);
    GcdPositive(a, b);
    if T.Unbounded? {
      g := GcdInteger(a, b);
    } else {
      var aAbs := T.ToUnsigned(if a < 0 then T.Neg(a) else a);
      var bAbs := T.ToUnsigned(if b < 0 then T.Neg(b) else b);
      var u := GcdBinary(aAbs, bAbs);
      g := T.ToSigned(u);
    }
  }

  /** integer::lcm: the magnitude of `a / gcd * b`, or zero when both arguments are zero. */
  method IntegerLcm(T: IntType, a: int, b: int) returns (m: int)
    requires T.Fits(a) && T.Fits(b) && T.Fits(Lcm(a, b))
    ensures m == Lcm(a, b)
  {
    var temp := GcdEuclidean(a, b);
    LcmQuotient(a, b, temp);
    var result := if temp != 0 then TruncDiv(a, temp) * b else 0;
    m := if result < 0 then -result else result;
  }

  lemma LcmQuotient(a: int, b: int, temp: int)
    requires Abs(temp) == Gcd(a, b)
    ensures temp != 0 ==> Abs(TruncDiv(a, temp) * b) == Lcm(a, b)
    ensures temp == 0 ==> Lcm(a, b) == 0
  {
    hide Gcd;
    if temp != 0 {
      var g := Gcd(a, b);
      GcdDivides(a, b);
      var i := Cofactor(g, a);
      ExactDivision(i, g);
      if temp < 0 {
        MulNeg(i, -temp);
        assert a == (-i) * temp;
        ExactDivision(-i, temp);
        MulNeg(i, b);
      }
    }
  }
}
