/** Python's numeric tower as the evaluator of Calc/calculator2025.py meets it:
    `int`, `float` and `complex`, with the arithmetic operators the evaluator
    applies (lines 76-83) and Python's rules for mixing the three types.

    A `float` is modelled by the exact real it stands for: rounding, overflow,
    infinities and NaN are not modelled.  Functions that a host library
    computes approximately (square root, logarithms, trigonometry, real powers
    with a fractional exponent, complex powers other than those with a whole
    exponent of at most 100 in size, the modulus of a complex number) are supplied by a
    `MathLib` value; their domains are stated here, their values are not.
 */
module PyNumbers {
  import opened Outcomes

  /** A number as Python holds it. */
  datatype Value = Int(i: int) | Float(x: real) | Complex(re: real, im: real)

  /** The host math library: the values of the transcendental functions. */
  datatype MathLib = MathLib(
    sqrt: real -> real,
    ln: real -> real,
    log10: real -> real,
    sin: real -> real,
    cos: real -> real,
    tan: real -> real,
    /** `x ** y` for `x > 0` and a non-integral `y` */
    rpow: (real, real) -> real,
    /** `(a+bj) ** (c+dj)` for a non-zero base and a non-zero exponent */
    cpow: (real, real, real, real) -> (real, real),
    /** `abs(a+bj)`, the modulus */
    hypot: (real, real) -> real)

  /** Real part (the value itself for `int` and `float`). */
  function Re(v: Value): real
  {
    match v
    case Int(i) => i as real
    case Float(x) => x
    case Complex(re, _) => re
  }

  /** Imaginary part (zero for `int` and `float`). */
  function Im(v: Value): real
  {
    if v.Complex? then v.im else 0.0
  }

  /** Python's `v == 0`, which holds for `0`, `0.0` and `0j` alike. */
  predicate IsZero(v: Value)
  {
    Re(v) == 0.0 && Im(v) == 0.0
  }

  /** `x` has no fractional part (`x == int(x)`). */
  predicate IsIntegral(x: real)
  {
    x.Floor as real == x
  }

  /** Python's `int(x)`: truncation toward zero. */
  function Trunc(x: real): (n: int)
    ensures n as real <= x < n as real + 1.0 || n as real - 1.0 < x <= n as real
    ensures x >= 0.0 ==> n >= 0 && n as real <= x
    ensures x <= 0.0 ==> n <= 0 && x <= n as real
  {
    if x >= 0.0 then x.Floor else -((-x).Floor)
  }

  function IntPow(a: int, n: nat): (p: int)
    ensures a != 0 ==> p != 0
    ensures a >= 0 ==> p >= 0
  {
    if n == 0 then 1 else a * IntPow(a, n - 1)
  }

  function RealPow(x: real, n: nat): (p: real)
    ensures x != 0.0 ==> p != 0.0
    ensures x >= 0.0 ==> p >= 0.0
  {
    if n == 0 then 1.0 else x * RealPow(x, n - 1)
  }

  /** Computing a power of an `int` and converting gives the power of the converted number. */
  lemma {:induction false} IntPowAsReal(a: int, n: nat)
    ensures IntPow(a, n) as real == RealPow(a as real, n)
  {
    if n > 0 {
      IntPowAsReal(a, n - 1);
    }
  }

  /** Python's `a // b` on `int`, rounding toward negative infinity. */
  function FloorDiv(a: int, b: int): int
    requires b != 0
  {
    if b > 0 || a % b == 0 then a / b else a / b - 1
  }

  /** Python's `a % b` on `int`: the remainder has the sign of the divisor. */
  function IntMod(a: int, b: int): (r: int)
    requires b != 0
    ensures a == FloorDiv(a, b) * b + r
    ensures if b > 0 then 0 <= r < b else b < r <= 0
  {
    if b > 0 || a % b == 0 then a % b
    else
      assert (a / b - 1) * b == (a / b) * b - b;
      a % b + b
  }

  /** Python's `x % y` on `float`: `x` minus a whole multiple of `y`, with the
      sign of `y`.  It is computed as `y` times the fractional part of `x / y`. */
  function FloatMod(x: real, y: real): (r: real)
    requires y != 0.0
    ensures IsIntegral((x - r) / y)
    ensures if y > 0.0 then 0.0 <= r < y else y < r <= 0.0
  {
    var k := (x / y).Floor;
    var t := x / y - k as real;
    assert 0.0 <= t < 1.0;
    WholeRest(x, y, k as real, t);
    if y > 0.0 then
      ScaleLe(y, 0.0, t);
      ScaleLt(y, t, 1.0);
      y * t
    else
      ScaleLe(-y, 0.0, t);
      ScaleLt(-y, t, 1.0);
      assert (-y) * t == -(y * t);
      y * t
  }

  lemma WholeRest(x: real, y: real, f: real, t: real)
    requires y != 0.0 && t == x / y - f
    ensures (x - y * t) / y == f
  {
    assert y * t == y * (x / y) - y * f;
    assert y * (x / y) == x;
    assert x - y * t == y * f;
  }

  lemma ScaleLe(c: real, a: real, b: real)
    requires c > 0.0 && a <= b
    ensures c * a <= c * b
  {
    assert c * b - c * a == c * (b - a);
  }

  lemma ScaleLt(c: real, a: real, b: real)
    requires c > 0.0 && a < b
    ensures c * a < c * b
  {
    assert c * b - c * a == c * (b - a);
  }

  function Add(l: Value, r: Value): (s: Value)
    ensures Re(s) == Re(l) + Re(r) && Im(s) == Im(l) + Im(r)
    ensures s.Int? <==> l.Int? && r.Int?
    ensures s.Complex? <==> l.Complex? || r.Complex?
  {
    if l.Int? && r.Int? then Int(l.i + r.i)
    else if l.Complex? || r.Complex? then Complex(Re(l) + Re(r), Im(l) + Im(r))
    else Float(Re(l) + Re(r))
  }

  function Sub(l: Value, r: Value): (d: Value)
    ensures Re(d) == Re(l) - Re(r) && Im(d) == Im(l) - Im(r)
    ensures d.Int? <==> l.Int? && r.Int?
    ensures d.Complex? <==> l.Complex? || r.Complex?
  {
    if l.Int? && r.Int? then Int(l.i - r.i)
    else if l.Complex? || r.Complex? then Complex(Re(l) - Re(r), Im(l) - Im(r))
    else Float(Re(l) - Re(r))
  }

  function Mul(l: Value, r: Value): (p: Value)
    ensures Re(p) == Re(l) * Re(r) - Im(l) * Im(r)
    ensures Im(p) == Re(l) * Im(r) + Im(l) * Re(r)
    ensures p.Int? <==> l.Int? && r.Int?
    ensures p.Complex? <==> l.Complex? || r.Complex?
  {
    if l.Int? && r.Int? then Int(l.i * r.i)
    else if l.Complex? || r.Complex? then
      Complex(Re(l) * Re(r) - Im(l) * Im(r), Re(l) * Im(r) + Im(l) * Re(r))
    else Float(Re(l) * Re(r))
  }

  /** Python's true division `/`; the caller has already excluded a zero
      divisor.  The real quotient is exact: multiplying it back by the divisor
      gives the dividend.  A complex divisor `c+dj` is non-zero, so its norm
      `c*c + d*d` is too; the guard on the norm only keeps the definition total. */
  function Div(l: Value, r: Value): (q: Value)
    requires !IsZero(r)
    ensures q.Complex? <==> l.Complex? || r.Complex?
    ensures !q.Int?
    ensures !q.Complex? ==> Re(q) == Re(l) / Re(r) && Re(q) * Re(r) == Re(l)
  {
    if l.Complex? || r.Complex? then
      var a, b, c, d := Re(l), Im(l), Re(r), Im(r);
      var n := c * c + d * d;
      if n == 0.0 then Complex(0.0, 0.0)
      else Complex((a * c + b * d) / n, (b * c - a * d) / n)
    else
      Float(Re(l) / Re(r))
  }

  /** Python's `%`: a zero divisor raises `ZeroDivisionError` and a complex
      operand raises `TypeError`; neither is an `EvalError`. */
  function Mod(l: Value, r: Value): (m: Result<Value>)
    ensures m.Err? <==> l.Complex? || r.Complex? || IsZero(r)
    ensures m.Err? ==> m.error.Uncaught?
    ensures m.Ok? ==> (m.value.Int? <==> l.Int? && r.Int?) && !m.value.Complex?
    ensures m.Ok? ==> IsIntegral((Re(l) - Re(m.value)) / Re(r))
    ensures m.Ok? ==> if Re(r) > 0.0 then 0.0 <= Re(m.value) < Re(r) else Re(r) < Re(m.value) <= 0.0
  {
    if l.Complex? || r.Complex? then Err(Uncaught(TypeError))
    else if IsZero(r) then Err(Uncaught(ZeroDivisionError))
    else if l.Int? && r.Int? then
      var m := IntMod(l.i, r.i);
      WholeQuotient(l.i, r.i, FloorDiv(l.i, r.i), m);
      Ok(Int(m))
    else Ok(Float(FloatMod(Re(l), Re(r))))
  }

  lemma WholeQuotient(a: int, b: int, q: int, m: int)
    requires b != 0 && a == q * b + m
    ensures IsIntegral((a - m) as real / b as real)
  {
    assert (a - m) as real == q as real * b as real;
    assert (a - m) as real / b as real == q as real;
  }

  /** `x ** y` for two real operands, at least one of them a `float`. */
  function RealPower(x: real, y: real, lib: MathLib): (p: Result<Value>)
    ensures p.Err? <==> x == 0.0 && y < 0.0
    ensures p.Err? ==> p.error == Uncaught(ZeroDivisionError)
    ensures p.Ok? ==> (p.value.Complex? <==> x < 0.0 && !IsIntegral(y))
    ensures p.Ok? && IsIntegral(y) && y >= 0.0 ==> p.value == Float(RealPow(x, y.Floor))
    ensures p.Ok? && IsIntegral(y) && y < 0.0 ==> p.value == Float(1.0 / RealPow(x, -y.Floor))
    ensures x == 0.0 && y > 0.0 ==> p == Ok(Float(0.0))
    ensures x > 0.0 && !IsIntegral(y) ==> p == Ok(Float(lib.rpow(x, y)))
  {
    if IsIntegral(y) then
      if y >= 0.0 then Ok(Float(RealPow(x, y.Floor)))
      else if x == 0.0 then Err(Uncaught(ZeroDivisionError))
      else Ok(Float(1.0 / RealPow(x, -y.Floor)))
    else if x > 0.0 then Ok(Float(lib.rpow(x, y)))
    else if x == 0.0 then
      if y > 0.0 then Ok(Float(0.0)) else Err(Uncaught(ZeroDivisionError))
    else
      // a negative base with a fractional exponent gives a complex number
      var (re, im) := lib.cpow(x, 0.0, y, 0.0);
      Ok(Complex(re, im))
  }

  lemma SquareSign(x: real)
    ensures x * x >= 0.0
    ensures x != 0.0 ==> x * x > 0.0
  {
  }

  /** Only zero has a zero squared modulus. */
  lemma NormPositive(a: real, b: real)
    requires a != 0.0 || b != 0.0
    ensures a * a + b * b > 0.0
  {
    SquareSign(a);
    SquareSign(b);
  }

  /** Multiplying the product `(a+bj)(c+dj) = x+yj` back by the conjugate of
      `a+bj` leaves `|a+bj|^2` times `c+dj`. */
  lemma Eliminate(a: real, b: real, c: real, d: real, x: real, y: real)
    requires x == a * c - b * d && y == a * d + b * c
    ensures a * x + b * y == (a * a + b * b) * c
    ensures a * y - b * x == (a * a + b * b) * d
  {
  }

  lemma ZeroFactor(p: real, c: real)
    requires p > 0.0 && p * c == 0.0
    ensures c == 0.0
  {
  }

  /** The product of two non-zero complex numbers is non-zero. */
  lemma ProductNonZero(a: real, b: real, c: real, d: real, x: real, y: real)
    requires a != 0.0 || b != 0.0
    requires c != 0.0 || d != 0.0
    requires x == a * c - b * d && y == a * d + b * c
    ensures x != 0.0 || y != 0.0
  {
    if x == 0.0 && y == 0.0 {
      Eliminate(a, b, c, d, x, y);
      NormPositive(a, b);
      ZeroFactor(a * a + b * b, c);
      ZeroFactor(a * a + b * b, d);
    }
  }

  /** `(a+bj) ** n` for a natural `n`, as CPython's `c_powu` computes it: a
      product of `n` factors `a+bj`, each taken with the `*` of `Mul` (by
      squaring in the source, which on exact reals gives the same product). */
  function ComplexPowN(a: real, b: real, n: nat): (z: Value)
    ensures z.Complex?
    ensures n == 0 ==> z == Complex(1.0, 0.0)
    ensures n == 1 ==> z == Complex(a, b)
  {
    if n == 0 then Complex(1.0, 0.0)
    else if n == 1 then Complex(a, b)
    else Mul(Complex(a, b), ComplexPowN(a, b, n - 1))
  }

  /** `Mul` of two non-zero complex numbers is non-zero. */
  lemma MulNonZero(l: Value, r: Value)
    requires l.Complex? && r.Complex? && !IsZero(l) && !IsZero(r)
    ensures !IsZero(Mul(l, r))
  {
    var p := Mul(l, r);
    ProductNonZero(l.re, l.im, r.re, r.im, p.re, p.im);
  }

  /** A power of a non-zero complex number is non-zero. */
  lemma {:induction false} PowerOfNonZero(a: real, b: real, n: nat)
    requires a != 0.0 || b != 0.0
    ensures !IsZero(ComplexPowN(a, b, n))
  {
    if n > 1 {
      PowerOfNonZero(a, b, n - 1);
      MulNonZero(Complex(a, b), ComplexPowN(a, b, n - 1));
    }
  }

  /** On a real base the complex power is the real power. */
  lemma {:induction false} RealBasePower(a: real, n: nat)
    ensures ComplexPowN(a, 0.0, n) == Complex(RealPow(a, n), 0.0)
  {
    if n == 1 {
      assert RealPow(a, 1) == a * RealPow(a, 0);
    } else if n > 1 {
      RealBasePower(a, n - 1);
    }
  }

  /** CPython computes `z ** c` for a real whole `c` with `|c| <= 100` exactly
      (`c_powi`); every other complex power comes from the library. */
  predicate SmallWholeExponent(c: real, d: real)
  {
    d == 0.0 && IsIntegral(c) && -100.0 <= c <= 100.0
  }

  /** `(a+bj) ** (c+dj)` once one operand is `complex`. */
  function ComplexPower(a: real, b: real, c: real, d: real, lib: MathLib): (p: Result<Value>)
    ensures p.Err? <==> a == 0.0 && b == 0.0 && !(c == 0.0 && d == 0.0) && (c < 0.0 || d != 0.0)
    ensures p.Err? ==> p.error == Uncaught(ZeroDivisionError)
    ensures p.Ok? ==> p.value.Complex?
    ensures c == 0.0 && d == 0.0 ==> p == Ok(Complex(1.0, 0.0))
    ensures a == 0.0 && b == 0.0 && c > 0.0 && d == 0.0 ==> p == Ok(Complex(0.0, 0.0))
    ensures !(a == 0.0 && b == 0.0) && SmallWholeExponent(c, d) && c > 0.0 ==>
              p == Ok(ComplexPowN(a, b, c.Floor))
    ensures !(a == 0.0 && b == 0.0) && SmallWholeExponent(c, d) && c < 0.0 ==>
              (PowerOfNonZero(a, b, -c.Floor);
               p == Ok(Div(Complex(1.0, 0.0), ComplexPowN(a, b, -c.Floor))))
    ensures !(a == 0.0 && b == 0.0) && !(c == 0.0 && d == 0.0) && !SmallWholeExponent(c, d) ==>
              p == Ok(Complex(lib.cpow(a, b, c, d).0, lib.cpow(a, b, c, d).1))
  {
    if c == 0.0 && d == 0.0 then Ok(Complex(1.0, 0.0))
    else if a == 0.0 && b == 0.0 then
      if d != 0.0 || c < 0.0 then Err(Uncaught(ZeroDivisionError)) else Ok(Complex(0.0, 0.0))
    else if SmallWholeExponent(c, d) then
      if c > 0.0 then Ok(ComplexPowN(a, b, c.Floor))
      else
        // `c_quot(c_1, c_powu(z, -c))`
        PowerOfNonZero(a, b, -c.Floor);
        Ok(Div(Complex(1.0, 0.0), ComplexPowN(a, b, -c.Floor)))
    else
      var (re, im) := lib.cpow(a, b, c, d);
      Ok(Complex(re, im))
  }

  /** Squaring a complex number is multiplying it by itself, as CPython's
      `c_powi` does. */
  lemma ComplexSquare(a: real, b: real, lib: MathLib)
    ensures Power(Complex(a, b), Int(2), lib) == Ok(Mul(Complex(a, b), Complex(a, b)))
  {
    var z := Complex(a, b);
    assert Re(Int(2)) == 2.0 && Im(Int(2)) == 0.0;
    assert Power(z, Int(2), lib) == ComplexPower(a, b, 2.0, 0.0, lib);
    assert (2.0).Floor == 2 && SmallWholeExponent(2.0, 0.0);
    assert ComplexPowN(a, b, 2) == Mul(z, z);
    if a == 0.0 && b == 0.0 {
      assert Mul(z, z) == Complex(0.0, 0.0);
    }
  }

  /** `1j ** 2` is exactly `-1+0j`. */
  lemma ImaginaryUnitSquared(lib: MathLib)
    ensures Power(Complex(0.0, 1.0), Int(2), lib) == Ok(Complex(-1.0, 0.0))
  {
    ComplexSquare(0.0, 1.0, lib);
  }

  /** `z ** 2 - z * z` is zero for every complex `z`. */
  lemma SquareMinusProduct(a: real, b: real, lib: MathLib)
    ensures Power(Complex(a, b), Int(2), lib).Ok?
    ensures IsZero(Sub(Power(Complex(a, b), Int(2), lib).value, Mul(Complex(a, b), Complex(a, b))))
  {
    ComplexSquare(a, b, lib);
  }

  /** Python's `**`.  It raises `ZeroDivisionError` (not an `EvalError`) for
      zero to a negative power, and yields a complex number from a negative
      base with a fractional exponent. */
  function Power(l: Value, r: Value, lib: MathLib): (p: Result<Value>)
    ensures p.Err? <==> IsZero(l) && !IsZero(r) && (Re(r) < 0.0 || Im(r) != 0.0)
    ensures p.Err? ==> p.error == Uncaught(ZeroDivisionError)
    ensures p.Ok? ==> (p.value.Int? <==> l.Int? && r.Int? && r.i >= 0)
    ensures p.Ok? ==> (p.value.Complex? <==>
                       l.Complex? || r.Complex? || (Re(l) < 0.0 && !IsIntegral(Re(r))))
    ensures l.Int? && r.Int? && r.i < 0 && l.i != 0 ==> p == Ok(Float(1.0 / RealPow(l.i as real, -r.i)))
    ensures !l.Complex? && !r.Complex? && !(l.Int? && r.Int?) ==> p == RealPower(Re(l), Re(r), lib)
    ensures l.Complex? || r.Complex? ==> p == ComplexPower(Re(l), Im(l), Re(r), Im(r), lib)
  {
    if l.Int? && r.Int? then
      if r.i >= 0 then Ok(Int(IntPow(l.i, r.i)))
      else if l.i == 0 then Err(Uncaught(ZeroDivisionError))
      else Ok(Float(1.0 / RealPow(l.i as real, -r.i)))
    else if l.Complex? || r.Complex? then ComplexPower(Re(l), Im(l), Re(r), Im(r), lib)
    else RealPower(Re(l), Re(r), lib)
  }

  /** An `int` raised to a non-negative `int` power has the value that the
      same power of the equal `float` has; only the type differs. */
  lemma PowerPromotion(a: int, n: int, lib: MathLib)
    requires n >= 0
    ensures Power(Int(a), Int(n), lib) == Ok(Int(IntPow(a, n)))
    ensures Power(Float(a as real), Int(n), lib) == Ok(Float(IntPow(a, n) as real))
  {
    assert (n as real).Floor == n;
    IntPowAsReal(a, n);
  }

  /** A negative whole exponent is the reciprocal of the positive power, for
      `int` and `float` bases and exponents alike: `x ** -n * x ** n == 1`. */
  lemma NegativeWholePower(a: int, n: int, lib: MathLib)
    requires a != 0 && n >= 1
    ensures Power(Int(a), Int(-n), lib) == Ok(Float(1.0 / (IntPow(a, n) as real)))
    ensures Power(Float(a as real), Int(-n), lib) == Ok(Float(1.0 / (IntPow(a, n) as real)))
    ensures Power(Int(a), Float(-n as real), lib) == Ok(Float(1.0 / (IntPow(a, n) as real)))
    ensures Re(Power(Int(a), Int(-n), lib).value) * (IntPow(a, n) as real) == 1.0
  {
    IntPowAsReal(a, n);
    var p := IntPow(a, n) as real;
    assert p != 0.0;
    assert (-n as real).Floor == -n;
    assert RealPower(a as real, -n as real, lib) == Ok(Float(1.0 / p));
    assert (1.0 / p) * p == 1.0;
  }

  /** Unary minus. */
  function Negate(v: Value): (n: Value)
    ensures Re(n) == -Re(v) && Im(n) == -Im(v)
    ensures n.Int? == v.Int? && n.Complex? == v.Complex?
  {
    match v
    case Int(i) => Int(-i)
    case Float(x) => Float(-x)
    case Complex(re, im) => Complex(-re, -im)
  }
}
