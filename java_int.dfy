/** Java's 32-bit `int` and the integer operators the model needs from it. */
module JavaInt {

  const TwoTo32: int := 0x1_0000_0000

  /** Java's `int`: a two's complement 32-bit integer. */
  newtype int32 = x: int | -0x8000_0000 <= x < 0x8000_0000

  /** n raised to the power e, on unbounded integers. */
  function Pow(n: int, e: nat): (r: int)
    ensures n > 0 ==> r > 0
  {
    if e == 0 then 1 else n * Pow(n, e - 1)
  }

  /** The value Java's `int` arithmetic produces for the exact result x:
      x reduced modulo 2^32 into the signed range. */
  function Wrap(x: int): (r: int32)
    ensures (r as int - x) % TwoTo32 == 0
    ensures -0x8000_0000 <= x < 0x8000_0000 ==> r as int == x
  {
    ((x + 0x8000_0000) % TwoTo32 - 0x8000_0000) as int32
  }

  /** Two integers that agree modulo 2^32 wrap to the same `int`. */
  lemma WrapCongruent(x: int, y: int)
    requires (x - y) % TwoTo32 == 0
    ensures Wrap(x) == Wrap(y)
  {
    var k := (x - y) / TwoTo32;
    assert x == y + k * TwoTo32;
    assert (x + 0x8000_0000) % TwoTo32 == (y + 0x8000_0000) % TwoTo32;
  }

  /** Wrapping an intermediate result before a multiply-add changes nothing:
      31 * Wrap(h) + e and 31 * h + e wrap alike. */
  lemma {:induction false} WrapMulAdd(c: int, h: int, e: int)
    ensures Wrap(c * (Wrap(h) as int) + e) == Wrap(c * h + e)
  {
    var k := (Wrap(h) as int - h) / TwoTo32;
    assert Wrap(h) as int == h + k * TwoTo32;
    assert c * (Wrap(h) as int) + e == c * h + e + (c * k) * TwoTo32;
    WrapCongruent(c * (Wrap(h) as int) + e, c * h + e);
  }

  /** |x|. */
  function Abs(x: int): nat
  {
    if x < 0 then -x else x
  }

  /** The quotient of two naturals, by repeated subtraction. */
  function Quotient(a: nat, b: nat): (q: nat)
    requires b > 0
    ensures q <= a
    ensures a > 0 && b > 1 ==> q < a
  {
    if a < b then 0 else 1 + Quotient(a - b, b)
  }

  /** The remainder of two naturals, by repeated subtraction. */
  function Remainder(a: nat, b: nat): (r: nat)
    requires b > 0
    ensures r < b
  {
    if a < b then a else Remainder(a - b, b)
  }

  /** Quotient and remainder put the dividend back together. */
  lemma {:induction false} QuotientRemainderSum(a: nat, b: nat)
    requires b > 0
    ensures b * Quotient(a, b) + Remainder(a, b) == a
  {
    if a >= b {
      QuotientRemainderSum(a - b, b);
      assert b * (1 + Quotient(a - b, b)) == b + b * Quotient(a - b, b);
    }
  }

  /** A positive multiple of a positive b is at least b. */
  lemma {:induction false} MultipleAtLeast(b: int, k: int)
    requires b > 0 && k >= 1
    ensures b * k >= b
  {
    if k > 1 {
      MultipleAtLeast(b, k - 1);
      assert b * k == b * (k - 1) + b;
    }
  }

  /** Euclidean division of a natural has a single quotient and remainder. */
  lemma DivisionUnique(a: nat, b: nat, q: int, r: int)
    requires b > 0 && 0 <= r < b && a == b * q + r
    ensures a / b == q && a % b == r
  {
    var q', r' := a / b, a % b;
    assert b * (q - q') == r' - r;
    if q > q' {
      MultipleAtLeast(b, q - q');
    } else if q < q' {
      MultipleAtLeast(b, q' - q);
    }
  }

  /** Repeated subtraction computes Dafny's division and modulus. */
  lemma QuotientRemainder(a: nat, b: nat)
    requires b > 0
    ensures Quotient(a, b) == a / b && Remainder(a, b) == a % b
  {
    QuotientRemainderSum(a, b);
    DivisionUnique(a, b, Quotient(a, b), Remainder(a, b));
  }

  /** Java's integer division `a / b`: the quotient truncated toward zero. */
  function Div(a: int, b: int): (q: int)
    requires b != 0
    ensures a >= 0 && b > 0 ==> 0 <= q <= a
  {
    var q: int := Quotient(Abs(a), Abs(b));
    if (a < 0) == (b < 0) then q else -q
  }

  /** Java's remainder `a % b`: the remainder of the magnitudes, with the
      sign of the dividend. */
  function Rem(a: int, b: int): (r: int)
    requires b != 0
    ensures a >= 0 ==> 0 <= r < Abs(b)
  {
    var r: int := Remainder(Abs(a), Abs(b));
    if a < 0 then -r else r
  }

  /** The identity Java's `/` and `%` satisfy (section 15.17.3 of the Java
      Language Specification): (a / b) * b + a % b == a, with the remainder
      smaller than the divisor in magnitude and never of the opposite sign
      to the dividend. */
  lemma DivRemIdentity(a: int, b: int)
    requires b != 0
    ensures Div(a, b) * b + Rem(a, b) == a
    ensures Abs(Rem(a, b)) < Abs(b)
    ensures a >= 0 ==> Rem(a, b) >= 0
    ensures a <= 0 ==> Rem(a, b) <= 0
  {
    var m: nat, n: nat := Abs(a), Abs(b);
    var q: int, r: int := Quotient(m, n), Remainder(m, n);
    QuotientRemainderSum(m, n);
    NegatedProduct(q, n);
    assert Rem(a, b) == if a < 0 then -r else r;
    assert Div(a, b) * b == if a < 0 then -(n * q) else n * q;
  }

  /** Negating a factor negates the product. */
  lemma NegatedProduct(x: int, y: int)
    ensures (-x) * y == -(y * x) && x * (-y) == -(y * x) && (-x) * (-y) == y * x
  {
  }

  /** On a non-negative dividend and a positive divisor Java's `/` and `%`
      are Dafny's. */
  lemma DivRemNatural(a: int, b: int)
    requires a >= 0 && b > 0
    ensures Div(a, b) == a / b && Rem(a, b) == a % b
  {
    QuotientRemainder(a, b);
  }
}
