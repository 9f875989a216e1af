/** The part of Python's `math` module that the formulas use, and the way its
    failures (and those of float division) surface to the caller.

    Real trigonometry cannot be computed in Dafny, so the library is a value
    `m: Math` that every formula receives as a parameter; `Lawful(m)` lists
    the facts about it that the proofs rely on. Every one of those facts is
    true of the real sine, cosine, arcsine, arccosine, square root and pi. */
module Maths {

  /** Python's exceptions, as far as the formulas can raise them. */
  datatype MathError =
    | ZeroDivision         // ZeroDivisionError from a float division
    | DomainError          // ValueError("math domain error") from sqrt, acos or asin
    | OutOfBounds          // the explicit `raise Exception(...)` of the free-flight clamp
    | NoMatchingSignature  // NotImplementedError from a multipledispatch Dispatcher

  datatype Result<T> = Ok(value: T) | Err(error: MathError) {
    predicate IsFailure() { Err? }

    function PropagateFailure<U>(): Result<U>
      requires Err?
    {
      Err(error)
    }

    function Extract(): T
      requires Ok?
    {
      value
    }
  }

  /** The functions of Python's `math` that the formulas call. Outside their
      domain (a negative radicand, an acos/asin argument beyond [-1, 1]) the
      fields hold arbitrary values; the wrappers below never reach them. */
  datatype Math = Math(
    pi: real,
    sin: real -> real,
    cos: real -> real,
    asin: real -> real,
    acos: real -> real,
    sqrt: real -> real)

  /** What the proofs assume of the library. */
  ghost predicate Lawful(m: Math) {
    && 3.14 < m.pi < 3.15
    && (forall x :: -1.0 <= m.sin(x) <= 1.0)
    && (forall x :: -1.0 <= m.cos(x) <= 1.0)
    && (forall x {:trigger m.sin(x), m.cos(x)} :: m.sin(x) * m.sin(x) + m.cos(x) * m.cos(x) == 1.0)
    && m.cos(0.0) == 1.0
    && m.cos(m.pi) == -1.0
    && (forall x {:trigger m.acos(m.cos(x))} :: 0.0 <= x <= m.pi ==> m.acos(m.cos(x)) == x)
    && (forall x {:trigger m.asin(m.sin(x))} :: -m.pi / 2.0 <= x <= m.pi / 2.0 ==> m.asin(m.sin(x)) == x)
    && (forall y {:trigger m.cos(m.acos(y))} :: -1.0 <= y <= 1.0 ==> m.cos(m.acos(y)) == y)
    && (forall y {:trigger m.sin(m.asin(y))} :: -1.0 <= y <= 1.0 ==> m.sin(m.asin(y)) == y)
    && (forall y :: -1.0 <= y <= 1.0 ==> 0.0 <= m.acos(y) <= m.pi)
    && (forall y :: -1.0 <= y <= 1.0 ==> -m.pi / 2.0 <= m.asin(y) <= m.pi / 2.0)
    && (forall x :: 0.0 < x < m.pi ==> m.sin(x) > 0.0)
    && (forall x :: 0.0 <= x ==> 0.0 <= m.sqrt(x) && m.sqrt(x) * m.sqrt(x) == x)
  }

  /** sin(pi - x) = sin(x). It is kept apart from `Lawful` because only the
      two burnout angles of a given range and the maximum-range results
      need it, and it instantiates on every pair of sines in a proof. */
  ghost predicate SineSymmetry(m: Math) {
    forall x, y :: x + y == m.pi ==> m.sin(x) == m.sin(y)
  }

  /** The double-angle formula for sine. It is kept apart from `Lawful`
      because only the down-range error needs it. */
  ghost predicate DoubleAngle(m: Math) {
    forall x {:trigger m.sin(2.0 * x)} :: m.sin(2.0 * x) == 2.0 * m.sin(x) * m.cos(x)
  }

  function Abs(x: real): (r: real)
    ensures r >= 0.0 && (r == x || r == -x)
  {
    if x < 0.0 then -x else x
  }

  /** Python's `a / b` on floats. */
  function Div(a: real, b: real): (r: Result<real>)
    ensures r.Ok? <==> b != 0.0
    ensures r.Err? ==> r.error == ZeroDivision
    ensures r.Ok? ==> r.value * b == a
  {
    if b == 0.0 then Err(ZeroDivision) else Ok(a / b)
  }

  /** `math.sqrt`. */
  function Sqrt(m: Math, x: real): (r: Result<real>)
    requires Lawful(m)
    ensures r.Ok? <==> x >= 0.0
    ensures r.Err? ==> r.error == DomainError
    ensures r.Ok? ==> r.value >= 0.0 && r.value * r.value == x
  {
    if x < 0.0 then Err(DomainError) else Ok(m.sqrt(x))
  }

  /** `math.acos`; the result is in radians. */
  function Acos(m: Math, x: real): (r: Result<real>)
    requires Lawful(m)
    ensures r.Ok? <==> -1.0 <= x <= 1.0
    ensures r.Err? ==> r.error == DomainError
    ensures r.Ok? ==> 0.0 <= r.value <= m.pi && m.cos(r.value) == x
  {
    if x < -1.0 || 1.0 < x then Err(DomainError) else Ok(m.acos(x))
  }

  /** `math.asin`; the result is in radians. */
  function Asin(m: Math, x: real): (r: Result<real>)
    requires Lawful(m)
    ensures r.Ok? <==> -1.0 <= x <= 1.0
    ensures r.Err? ==> r.error == DomainError
    ensures r.Ok? ==> -m.pi / 2.0 <= r.value <= m.pi / 2.0 && m.sin(r.value) == x
  {
    if x < -1.0 || 1.0 < x then Err(DomainError) else Ok(m.asin(x))
  }

  // Facts about real arithmetic. The solver handles products best when they
  // appear in the conclusion, so the basic facts are stated that way and the
  // others are derived from them.

  /** Squaring is strictly increasing on the non-negative reals. */
  lemma SquareLess(s: real, y: real)
    requires 0.0 <= s < y
    ensures s * s < y * y
  {
    var ss, sy, yy := s * s, s * y, y * y;
    assert ss <= sy;
    assert sy < yy;
  }

  lemma SquaresDistinct(s: real, y: real)
    requires s >= 0.0 && y >= 0.0 && s != y
    ensures s * s != y * y
  {
    if s < y { SquareLess(s, y); } else { SquareLess(y, s); }
  }

  /** Two non-negative numbers with the same square are equal. */
  lemma SquareRootUnique(s: real, y: real)
    requires s >= 0.0 && y >= 0.0 && s * s == y * y
    ensures s == y
  {
    if s != y { SquaresDistinct(s, y); }
  }

  lemma SquareExceeds(a: real, b: real)
    requires b >= 0.0 && (a > b || a < -b)
    ensures a * a > b * b
  {
    if a > b {
      SquareLess(b, a);
    } else {
      SquareLess(b, -a);
      assert (-a) * (-a) == a * a;
    }
  }

  /** |a| <= b follows from a^2 <= b^2 when b >= 0. */
  lemma AbsFromSquares(a: real, b: real)
    requires b >= 0.0 && a * a <= b * b
    ensures -b <= a <= b
  {
    if a > b || a < -b { SquareExceeds(a, b); }
  }

  lemma SquareZero(x: real)
    requires x * x == 0.0
    ensures x == 0.0
  {
    AbsFromSquares(x, 0.0);
  }

  /** Division is multiplication by the reciprocal. */
  lemma DivIsMulReciprocal(a: real, b: real)
    requires b != 0.0
    ensures a / b == a * (1.0 / b)
  {
  }

  /** Scaling by a factor in [-1, 1] never increases magnitude. */
  lemma MulAbsBound(a: real, c: real)
    requires -1.0 <= c <= 1.0
    ensures Abs(a * c) <= Abs(a)
  {
    var ac := a * c;
    var b := Abs(a);
    var lo, hi := b * (1.0 - c), b * (1.0 + c);
    assert lo >= 0.0 && hi >= 0.0;
    if a >= 0.0 {
      assert a - ac == lo && a + ac == hi;
    } else {
      assert -a + ac == lo && -a - ac == hi;
    }
  }

  lemma SquareNonNegative(x: real)
    ensures x * x >= 0.0
  {
    if x < 0.0 { ProductNonNegative(-x, -x); }
  }

  /** `math.pow(x, 3.0)`. */
  function Cube(x: real): real {
    x * x * x
  }

  lemma CubeSign(x: real)
    ensures Cube(x) >= 0.0 <==> x >= 0.0
    ensures Cube(x) == 0.0 <==> x == 0.0
  {
    var xx := x * x;
    SquareNonNegative(x);
    ProductZero(x, x);
    ProductZero(xx, x);
    if x > 0.0 { ProductNonNegative(xx, x); }
    if x < 0.0 { assert xx > 0.0; assert xx * x < 0.0; }
  }

  /** A product of non-negative factors is non-negative. */
  lemma ProductNonNegative(a: real, b: real)
    requires a >= 0.0 && b >= 0.0
    ensures a * b >= 0.0
  {
  }

  /** Dividing by a positive number keeps the sign. */
  lemma QuotientSign(a: real, b: real)
    requires b > 0.0
    ensures a / b == 0.0 <==> a == 0.0
    ensures a / b > 0.0 <==> a > 0.0
    ensures a / b >= 0.0 <==> a >= 0.0
  {
    var q := a / b;
    assert q * b == a;
    ProductZero(q, b);
    assert q > 0.0 ==> q * b > 0.0;
    assert q < 0.0 ==> q * b < 0.0;
  }

  /** Multiplying by a positive number keeps the sign. */
  lemma ProductSign(k: real, x: real)
    requires k > 0.0
    ensures k * x >= 0.0 <==> x >= 0.0
    ensures k * x > 0.0 <==> x > 0.0
  {
    assert x > 0.0 ==> k * x > 0.0;
    assert x < 0.0 ==> k * x < 0.0;
  }

  /** (k (q / r)) r / k == q. */
  lemma ScaledQuotient(k: real, q: real, r: real, w: real)
    requires k != 0.0 && r != 0.0 && w == k * (q / r)
    ensures w * r / k == q
  {
    var qr := q / r;
    assert qr * r == q;
    assert w * r == k * q;
    QuotientUnique(w * r, k, q);
  }

  /** k ((w r / k) / r) == w. */
  lemma UnscaledQuotient(k: real, w: real, r: real)
    requires k != 0.0 && r != 0.0
    ensures k * ((w * r / k) / r) == w
  {
    var a := w * r / k;
    assert a * k == w * r;
    var b := a / r;
    assert b * r == a;
    assert b * r * k == w * r;
    assert k * b == w;
  }

  /** A product is zero exactly when a factor is. */
  lemma ProductZero(a: real, b: real)
    ensures a * b == 0.0 <==> a == 0.0 || b == 0.0
  {
    if a != 0.0 && b != 0.0 {
      var ab := a * b;
      assert ab / b == a;
    }
  }

  /** A quotient is the unique solution of q * b == a. */
  lemma QuotientUnique(a: real, b: real, q: real)
    requires b != 0.0 && q * b == a
    ensures a / b == q
  {
    var d := a / b - q;
    var db := d * b;
    assert db == 0.0;
    ProductZero(d, b);
  }

  /** For a positive numerator, the quotient shrinks as the (positive)
      denominator grows. */
  lemma QuotientDecreasing(a: real, x: real, y: real)
    requires a > 0.0 && 0.0 < x < y
    ensures a / y < a / x
  {
    var qx, qy := a / x, a / y;
    assert qx * x == a && qy * y == a;
    assert qy > 0.0;
    var qyx, qyy, qxx := qy * x, qy * y, qx * x;
    assert qyx < qyy;
    assert qy >= qx ==> qyx >= qxx;
  }

  /** |a| <= b with b > 0 puts a / b in [-1, 1]. */
  lemma QuotientInUnit(a: real, b: real)
    requires b > 0.0 && -b <= a <= b
    ensures -1.0 <= a / b <= 1.0
  {
    var q := a / b;
    assert q * b == a;
    var lo, hi := (q + 1.0) * b, (1.0 - q) * b;
    assert lo >= 0.0 && hi >= 0.0;
    assert q + 1.0 < 0.0 ==> lo < 0.0;
    assert 1.0 - q < 0.0 ==> hi < 0.0;
  }

  // Facts derived from Lawful that several modules use.

  lemma SinZero(m: Math)
    requires Lawful(m)
    ensures m.sin(0.0) == 0.0 && m.sin(m.pi) == 0.0
  {
    var s0, s1 := m.sin(0.0), m.sin(m.pi);
    assert s0 * s0 + 1.0 * 1.0 == 1.0;
    assert s1 * s1 + (-1.0) * (-1.0) == 1.0;
    SquareZero(s0);
    SquareZero(s1);
  }

  /** Sine is non-negative on [0, pi]. */
  lemma SinNonNegative(m: Math, x: real)
    requires Lawful(m) && 0.0 <= x <= m.pi
    ensures m.sin(x) >= 0.0
  {
    SinZero(m);
  }

  /** The library's square root is the non-negative root. */
  lemma SqrtUnique(m: Math, x: real, y: real)
    requires Lawful(m) && y >= 0.0 && y * y == x
    ensures m.sqrt(x) == y
  {
    SquareRootUnique(m.sqrt(x), y);
  }
}
