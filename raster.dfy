/** The image.RGBA raster: a width x height rectangle at the origin whose
    pixels are written in place by Set. */
module Raster {
  import opened Colour

  predicate InBounds(x: int, y: int, width: int, height: int) {
    0 <= x < width && 0 <= y < height
  }

  class Image {
    const width: nat
    const height: nat
    /** The pixel buffer, indexed [x, y]. */
    const pix: array2<Rgba>

    predicate Valid() {
      pix.Length0 == width && pix.Length1 == height
    }

    /** The colour of pixel (x, y). */
    function At(x: int, y: int): Rgba
      requires Valid() && InBounds(x, y, width, height)
      reads pix
    {
      pix[x, y]
    }

    /** image.NewRGBA: every pixel starts as the zero colour. */
    constructor (width: nat, height: nat)
      ensures this.width == width && this.height == height
      ensures Valid() && fresh(pix)
      ensures forall x, y :: InBounds(x, y, width, height) ==> At(x, y) == Transparent
    {
      this.width := width;
      this.height := height;
      pix := new Rgba[width, height]((_, _) => Transparent);
    }

    /** image.RGBA.Set: writes pixel (x, y) when it lies inside the
        rectangle and does nothing otherwise. */
    method Set(x: int, y: int, c: Rgba)
      requires Valid()
      modifies pix
      ensures forall x', y' :: InBounds(x', y', width, height) ==>
        At(x', y') == if x' == x && y' == y then c else old(At(x', y'))
    {
      if InBounds(x, y, width, height) {
        pix[x, y] := c;
      }
    }
  }
}
