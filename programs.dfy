/** src/mandelbrot.go: the colour-factor renderer. Its settings are package
    variables (3000 x 2000, scale 2, centre -0.5 + 0i, factors 1, cap 200,
    bound 6). Its compute is Render.Compute run with a Factors palette;
    the lemmas below read the resulting raster channel by channel. */
module Mandelbrot {
  import opened Layout
  import opened Colour
  import opened Raster
  import opened Render

  /** The colour a pixel is expected to get under the factor palette,
      written out channel by channel. */
  lemma FactorPixel(s: Settings, w: Window, x: int, y: int, c: Rgba)
    requires Viewport.Mappable(w) && s.palette.Factors?
    requires s.maxIterations > 0 && s.maxModulusSize >= 0.0
    requires c == Expected(s, w, x, y)
    ensures var n := Remaining(s, w, Point(x + w.min.X, y + w.min.Y));
      && 0 <= n < s.maxIterations
      && c == Rgba((n * s.palette.redFactor) % 256, (n * s.palette.blueFactor) % 256, (n * s.palette.greenFactor) % 256, 255)
  {
    var n := Remaining(s, w, Point(x + w.min.X, y + w.min.Y));
    RemainingBounds(s, w, Point(x + w.min.X, y + w.min.Y));
    FactorChannelsWrap(n, s.palette.redFactor, s.palette.greenFactor, s.palette.blueFactor);
  }

  /** A raster holding the expected colour everywhere holds the wrapping
      products everywhere. */
  lemma FactorImage(s: Settings, w: Window, img: Image)
    requires Viewport.Mappable(w) && s.palette.Factors? && img.Valid()
    requires s.maxIterations > 0 && s.maxModulusSize >= 0.0
    requires forall x, y :: InBounds(x, y, img.width, img.height) ==> img.At(x, y) == Expected(s, w, x, y)
    ensures forall x, y :: InBounds(x, y, img.width, img.height) ==>
      var n := Remaining(s, w, Point(x + w.min.X, y + w.min.Y));
      && 0 <= n < s.maxIterations
      && img.At(x, y) == Rgba((n * s.palette.redFactor) % 256, (n * s.palette.blueFactor) % 256, (n * s.palette.greenFactor) % 256, 255)
  {
    forall x, y | InBounds(x, y, img.width, img.height)
      ensures var n := Remaining(s, w, Point(x + w.min.X, y + w.min.Y));
        && 0 <= n < s.maxIterations
        && img.At(x, y) == Rgba((n * s.palette.redFactor) % 256, (n * s.palette.blueFactor) % 256, (n * s.palette.greenFactor) % 256, 255)
    {
      FactorPixel(s, w, x, y, img.At(x, y));
    }
  }
}

/** mandelbrotjuliapackage/main.go: the same renderer with the gray
    palette, cap 200 and bound 6. */
module JuliaPackage {
  import opened Layout
  import opened Colour
  import opened Raster
  import opened Render

  const MaxIterations: nat := 200
  const MaxModulusSize: real := 6.0

  /** The package variables of this program, with the image geometry as parameters. */
  function GraySettings(width: nat, height: nat, scale: real, centerX: real, centerY: real): Settings {
    Settings(width, height, scale, centerX, centerY, Gray, MaxIterations, MaxModulusSize)
  }

  /** A raster holding the expected gray colour everywhere has, at every
      pixel, all three channels equal to the remaining count and opaque
      alpha: a count below 256 survives the uint8 conversion unchanged. */
  lemma GrayImage(s: Settings, w: Window, img: Image)
    requires Viewport.Mappable(w) && s.palette == Gray && img.Valid()
    requires 0 < s.maxIterations <= 256 && s.maxModulusSize >= 0.0
    requires forall x, y :: InBounds(x, y, img.width, img.height) ==> img.At(x, y) == Expected(s, w, x, y)
    ensures forall x, y :: InBounds(x, y, img.width, img.height) ==>
      var n := Remaining(s, w, Point(x + w.min.X, y + w.min.Y));
      && 0 <= n < s.maxIterations
      && img.At(x, y) == Rgba(n, n, n, 255)
  {
    forall x, y | InBounds(x, y, img.width, img.height)
      ensures var n := Remaining(s, w, Point(x + w.min.X, y + w.min.Y));
        && 0 <= n < s.maxIterations
        && img.At(x, y) == Rgba(n, n, n, 255)
    {
      var n := Remaining(s, w, Point(x + w.min.X, y + w.min.Y));
      RemainingBounds(s, w, Point(x + w.min.X, y + w.min.Y));
      GrayIsRemaining(n);
    }
  }

  /** main: lay out the window, enumerate it and draw every pixel gray with
      all three channels equal to its remaining count, below 200. */
  method Run(width: nat, height: nat, scale: real, centerX: real, centerY: real) returns (img: Image, s: Settings, ghost w: Window)
    requires width >= 2 && height >= 2
    ensures s == GraySettings(width, height, scale, centerX, centerY)
    ensures fresh(img) && img.Valid() && img.width == width && img.height == height
    ensures w == MakeWindow(width, height) && Viewport.Mappable(w)
    ensures forall x, y :: InBounds(x, y, img.width, img.height) ==>
      var n := Remaining(s, w, Point(x + w.min.X, y + w.min.Y));
      && 0 <= n < MaxIterations
      && img.At(x, y) == Rgba(n, n, n, 255)
  {
    s := GraySettings(width, height, scale, centerX, centerY);
    ghost var visited;
    img, w, visited := Compute(s);
    GrayImage(s, w, img);
  }
}
