/** Colour encoding of a remaining-iteration count: color.RGBA bytes built
    with Go's wrapping uint8 arithmetic. */
module Colour {

  /** Go's uint8 */
  type Byte = x: int | 0 <= x < 256

  /** color.RGBA{R, G, B, A} */
  datatype Rgba = Rgba(r: Byte, g: Byte, b: Byte, a: Byte)

  /** The zero colour an image.RGBA starts with. */
  const Transparent := Rgba(0, 0, 0, 0)

  /** uint8(x) for an integer x keeps the low eight bits (two's complement),
      which is x modulo 256 for negative x too. */
  function Uint8(x: int): (b: Byte)
    ensures exists q :: x == 256 * q + b
  {
    assert x == 256 * (x / 256) + x % 256;
    x % 256
  }

  /** Multiplication of two uint8 values wraps around. */
  function MulUint8(a: Byte, b: Byte): Byte {
    (a * b) % 256
  }

  /** How the remaining count is coloured. */
  datatype Palette =
    | Factors(redFactor: int, greenFactor: int, blueFactor: int)
    | Gray

  /** src/mandelbrot.go draw: R from redFactor, G from BLUEfactor, B from
      GREENfactor, each a wrapping uint8 product; opaque alpha. */
  function FactorColour(iterations: int, redFactor: int, greenFactor: int, blueFactor: int): Rgba {
    var colorValue := Uint8(iterations);
    Rgba(MulUint8(colorValue, Uint8(redFactor)),
         MulUint8(colorValue, Uint8(blueFactor)),
         MulUint8(colorValue, Uint8(greenFactor)),
         0xff)
  }

  /** mandelbrotjuliapackage/main.go draw: uint8(float64(iterations)) in all
      three channels, opaque alpha. */
  function GrayColour(iterations: int): Rgba {
    var colorValue := Uint8(iterations);
    Rgba(colorValue, colorValue, colorValue, 0xff)
  }

  function PixelColour(palette: Palette, iterations: int): Rgba {
    match palette
    case Factors(red, green, blue) => FactorColour(iterations, red, green, blue)
    case Gray => GrayColour(iterations)
  }

  /** (a mod m) * (b mod m) is a * b modulo m. */
  lemma {:induction false} MulMod(a: int, b: int)
    ensures ((a % 256) * (b % 256)) % 256 == (a * b) % 256
  {
    var qa, ra := a / 256, a % 256;
    var qb, rb := b / 256, b % 256;
    assert a == 256 * qa + ra;
    assert b == 256 * qb + rb;
    calc {
      a * b;
      (256 * qa + ra) * (256 * qb + rb);
      256 * (256 * qa * qb + qa * rb + ra * qb) + ra * rb;
    }
    ModOfMultipleShift(256 * qa * qb + qa * rb + ra * qb, ra * rb);
  }

  lemma ModOfMultipleShift(k: int, r: int)
    ensures (256 * k + r) % 256 == r % 256
  {
  }

  /** Each channel is (iterations * factor) mod 256: the arithmetic wraps
      and never clamps. Green uses blueFactor and blue uses greenFactor. */
  lemma FactorChannelsWrap(iterations: int, redFactor: int, greenFactor: int, blueFactor: int)
    ensures var c := FactorColour(iterations, redFactor, greenFactor, blueFactor);
      && c.r == (iterations * redFactor) % 256
      && c.g == (iterations * blueFactor) % 256
      && c.b == (iterations * greenFactor) % 256
      && c.a == 255
  {
    MulMod(iterations, redFactor);
    MulMod(iterations, blueFactor);
    MulMod(iterations, greenFactor);
  }

  /** A remaining count of 200 with factor 3 gives 600 mod 256 = 88, not 255. */
  lemma WrapExample()
    ensures FactorColour(200, 3, 3, 3) == Rgba(88, 88, 88, 255)
  {
    FactorChannelsWrap(200, 3, 3, 3);
  }

  /** All three gray channels are the byte of the count; for a count that
      fits in a byte (the cap is 200) that byte is the count itself. */
  lemma GrayIsRemaining(iterations: int)
    requires 0 <= iterations <= 255
    ensures var c := GrayColour(iterations);
      c.r == c.g == c.b == iterations && c.a == 255
  {
  }
}
