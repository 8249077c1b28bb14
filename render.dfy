/** The renderer of src/mandelbrot.go (and, with the gray palette, of
    mandelbrotjuliapackage/main.go): lay out the symmetric window, enumerate
    every point of it, run the recursive kernel from z = 0 for each and draw
    the remaining count into the raster.

    The worker goroutines, the coordinate channel, the WaitGroup and the
    draw lock are collapsed into one sequential run: each coordinate is
    processed when the nested loop produces it. */
module Render {
  import opened Plane
  import opened Layout
  import opened Viewport
  import opened Colour
  import opened Raster
  import Kernel

  /** The package-level settings one render reads. */
  datatype Settings = Settings(
    width: nat,
    height: nat,
    scale: real,
    centerX: real,
    centerY: real,
    palette: Palette,
    maxIterations: nat,
    maxModulusSize: real)

  /** The viewport divides by half the width and half the height. */
  predicate Renderable(s: Settings) {
    s.width >= 2 && s.height >= 2
  }

  /** The count the kernel hands to draw for window point p. */
  function Remaining(s: Settings, w: Window, p: Point): nat
    requires Mappable(w)
  {
    Kernel.FromOrigin(PlanePoint(p, w, s.scale, s.centerX, s.centerY), s.maxModulusSize, s.maxIterations)
  }

  /** The colour pixel (x, y) must end up with. */
  function Expected(s: Settings, w: Window, x: int, y: int): Rgba
    requires Mappable(w)
  {
    PixelColour(s.palette, Remaining(s, w, Point(x + w.min.X, y + w.min.Y)))
  }

  /** The count drawn for every point lies in [0, maxIterations], and when
      the bound is at least zero and the cap positive, at most
      maxIterations - 1: the check at z = 0 never escapes. */
  lemma RemainingBounds(s: Settings, w: Window, p: Point)
    requires Mappable(w)
    ensures 0 <= Remaining(s, w, p) <= s.maxIterations
    ensures s.maxModulusSize >= 0.0 && s.maxIterations > 0 ==> Remaining(s, w, p) <= s.maxIterations - 1
  {
    if s.maxModulusSize >= 0.0 && s.maxIterations > 0 {
      Kernel.FromOriginConsumesOne(PlanePoint(p, w, s.scale, s.centerX, s.centerY), s.maxModulusSize, s.maxIterations);
    }
  }

  /** draw: colour the count and set pixel (X - min.X, Y - min.Y); every
      other pixel keeps its colour. */
  method Draw(s: Settings, w: Window, coordinates: Point, iterations: int, img: Image)
    requires img.Valid()
    modifies img.pix
    ensures forall x, y :: InBounds(x, y, img.width, img.height) ==>
      img.At(x, y) == if Point(x, y) == ToPixel(coordinates, w) then PixelColour(s.palette, iterations) else old(img.At(x, y))
  {
    var pixelColor := PixelColour(s.palette, iterations);
    var x := coordinates.X - w.min.X;
    var y := coordinates.Y - w.min.Y;
    img.Set(x, y, pixelColor);
  }

  /** computation: the recursive kernel whose only effect is the final
      draw of the remaining count at the coordinate's pixel. */
  method Computation(s: Settings, w: Window, z: Complex, coordinates: Point, iterations: nat, img: Image)
    requires Mappable(w) && img.Valid()
    modifies img.pix
    ensures forall x, y :: InBounds(x, y, img.width, img.height) ==>
      img.At(x, y) ==
        if Point(x, y) == ToPixel(coordinates, w) then
          PixelColour(s.palette, Kernel.Computation(z, PlanePoint(coordinates, w, s.scale, s.centerX, s.centerY), s.maxModulusSize, iterations))
        else old(img.At(x, y))
    decreases iterations
  {
    if iterations == 0 || Escaped(z, s.maxModulusSize) {
      Draw(s, w, coordinates, iterations, img);
      return;
    }
    var c := PlanePoint(coordinates, w, s.scale, s.centerX, s.centerY);
    var z' := Step(z, c);
    Computation(s, w, z', coordinates, iterations - 1, img);
  }

  /** The inner loop of compute for one column i: for j := min.Y; j < max.Y;
      j++ the coordinate (i, j) is processed. Exactly the pixels of
      column i - min.X receive their final colour; the rest are untouched. */
  method ComputeColumn(s: Settings, w: Window, i: int, img: Image) returns (ghost sent: seq<Point>)
    requires Mappable(w) && img.Valid() && w.min.X <= i < w.max.X && w.min.Y <= w.max.Y
    requires img.width == Width(w) && img.height == Height(w)
    modifies img.pix
    ensures sent == Column(i, w.min.Y, w.max.Y)
    ensures forall x, y :: InBounds(x, y, img.width, img.height) ==>
      img.At(x, y) == if x + w.min.X == i then Expected(s, w, x, y) else old(img.At(x, y))
  {
    sent := [];
    var j := w.min.Y;
    while j < w.max.Y
      invariant w.min.Y <= j <= w.max.Y
      invariant sent == Column(i, w.min.Y, j)
      invariant forall x, y :: InBounds(x, y, img.width, img.height) ==>
        img.At(x, y) == if x + w.min.X == i && y + w.min.Y < j then Expected(s, w, x, y) else old(img.At(x, y))
    {
      var coordinates := Point(i, j);
      Computation(s, w, Zero, coordinates, s.maxIterations, img);
      assert img.At(i - w.min.X, j - w.min.Y) == Expected(s, w, i - w.min.X, j - w.min.Y);
      sent := sent + [coordinates];
      j := j + 1;
    }
  }

  /** compute: build the window and the raster, then enumerate the window
      with the outer loop over X and the inner over Y and run the kernel
      for each point. `visited` records the coordinates in the order sent. */
  method Compute(s: Settings) returns (img: Image, w: Window, ghost visited: seq<Point>)
    requires Renderable(s)
    ensures w == MakeWindow(s.width, s.height) && Mappable(w)
    ensures fresh(img) && fresh(img.pix) && img.Valid()
    ensures img.width == s.width && img.height == s.height
    ensures visited == Enumeration(w)
    ensures forall x, y :: InBounds(x, y, img.width, img.height) ==> img.At(x, y) == Expected(s, w, x, y)
  {
    w := MakeWindow(s.width, s.height);
    img := new Image(w.max.X - w.min.X, w.max.Y - w.min.Y);
    visited := [];
    var i := w.min.X;
    while i < w.max.X
      invariant w.min.X <= i <= w.max.X
      invariant visited == Grid(w, i)
      invariant forall x, y :: InBounds(x, y, img.width, img.height) ==>
        img.At(x, y) == if x + w.min.X < i then Expected(s, w, x, y) else Transparent
    {
      var column := ComputeColumn(s, w, i, img);
      visited := visited + column;
      i := i + 1;
    }
  }
}
