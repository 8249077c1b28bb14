/** Exact complex arithmetic over the reals, standing in for Go's complex128. */
module Plane {

  datatype Complex = Complex(re: real, im: real)

  const Zero := Complex(0.0, 0.0)

  function Add(a: Complex, b: Complex): Complex {
    Complex(a.re + b.re, a.im + b.im)
  }

  function Mul(a: Complex, b: Complex): Complex {
    Complex(a.re * b.re - a.im * b.im, a.re * b.im + a.im * b.re)
  }

  /** One step of the quadratic recurrence: z*z + c. */
  function Step(z: Complex, c: Complex): Complex {
    Add(Mul(z, z), c)
  }

  /** The squared modulus |z|^2. */
  function NormSq(z: Complex): real {
    z.re * z.re + z.im * z.im
  }

  /** `|z| > bound`, decided without a square root: the modulus is never
      negative, so a negative bound is always exceeded, and for a bound
      of at least zero the comparison can be squared. */
  predicate Escaped(z: Complex, bound: real) {
    bound < 0.0 || NormSq(z) > bound * bound
  }

  /** `Escaped` is `|z| > bound`: for any modulus m of z (m >= 0 and
      m * m == re² + im²), z escapes exactly when m exceeds the bound. */
  lemma EscapedIsModulusAbove(z: Complex, bound: real, modulus: real)
    requires modulus >= 0.0 && modulus * modulus == NormSq(z)
    ensures Escaped(z, bound) <==> modulus > bound
  {
    if bound >= 0.0 {
      if modulus > bound {
        ProductGrows(bound, modulus);
      } else {
        ProductGrows(modulus, bound);
      }
    }
  }

  /** Squaring keeps the order of non-negative reals. */
  lemma ProductGrows(x: real, y: real)
    requires 0.0 <= x <= y
    ensures x * x <= y * y
    ensures x < y ==> x * x < y * y
  {
    var xx, xy, yy := x * x, x * y, y * y;
    assert xx <= xy by { assert xy - xx == x * (y - x); }
    assert xy <= yy by { assert yy - xy == y * (y - x); }
    if x < y {
      assert xy < yy by { assert yy - xy == y * (y - x); }
    }
  }

  /** The origin is never outside a bound of at least zero. */
  lemma ZeroNotEscaped(bound: real)
    requires bound >= 0.0
    ensures !Escaped(Zero, bound)
  {
    assert bound * bound >= 0.0;
  }

  /** The first step from the origin lands on c itself. */
  lemma StepFromOrigin(c: Complex)
    ensures Step(Zero, c) == c
  {
    assert Mul(Zero, Zero) == Zero;
  }
}
