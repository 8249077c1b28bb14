/** The viewport map from a window point to the complex plane:
    re = X / (-min.X) * scale + centerX, im = Y / (-min.Y) * scale + centerY. */
module Viewport {
  import opened Plane
  import opened Layout

  /** The divisor -min.X is half the width; it is zero for a width of 1
      (and a height of 1), where Go's float division yields NaN, so the
      map is defined only for windows at least two points wide and tall. */
  predicate Mappable(w: Window) {
    w.min.X < 0 && w.min.Y < 0
  }

  function PlanePoint(coordinates: Point, w: Window, scale: real, centerX: real, centerY: real): Complex
    requires Mappable(w)
  {
    Complex((coordinates.X as real) / ((-w.min.X) as real) * scale + centerX,
            (coordinates.Y as real) / ((-w.min.Y) as real) * scale + centerY)
  }

  /** Every image of at least 2 x 2 pixels can be mapped. */
  lemma MappableWindow(width: nat, height: nat)
    ensures Mappable(MakeWindow(width, height)) <==> width >= 2 && height >= 2
  {
  }

  /** The centre pixel (width/2, height/2) is the window point (0, 0) and
      maps exactly to (centerX, centerY). */
  lemma CentrePixelMapsToCentre(width: nat, height: nat, scale: real, centerX: real, centerY: real)
    requires width >= 2 && height >= 2
    ensures var w := MakeWindow(width, height);
      && ToPixel(Point(0, 0), w) == Point(width / 2, height / 2)
      && PlanePoint(Point(0, 0), w, scale, centerX, centerY) == Complex(centerX, centerY)
  {
  }

  /** x / h * s for -h <= x <= h and s >= 0 lies in [-s, s]. */
  lemma {:induction false} ScaledRatioBounds(x: real, h: real, s: real)
    requires h > 0.0 && -h <= x <= h && s >= 0.0
    ensures -s <= x / h * s <= s
  {
    var t := x / h;
    assert t * h == x;
    assert -1.0 <= t <= 1.0;
    assert -s <= t * s <= s by {
      if t >= 0.0 {
        assert t * s <= 1.0 * s;
      } else {
        assert t * s >= -1.0 * s;
      }
    }
  }

  /** Every point of the window maps into the square of half-side scale
      around the centre. */
  lemma ViewportBounds(width: nat, height: nat, p: Point, scale: real, centerX: real, centerY: real)
    requires width >= 2 && height >= 2 && scale >= 0.0
    requires InWindow(p, MakeWindow(width, height))
    ensures var z := PlanePoint(p, MakeWindow(width, height), scale, centerX, centerY);
      && centerX - scale <= z.re <= centerX + scale
      && centerY - scale <= z.im <= centerY + scale
  {
    var w := MakeWindow(width, height);
    ScaledRatioBounds(p.X as real, (-w.min.X) as real, scale);
    ScaledRatioBounds(p.Y as real, (-w.min.Y) as real, scale);
  }
}
