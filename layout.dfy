/** The integer raster layout: the symmetric coordinate window built from
    the image size, the nested enumeration of its points (outer loop over X,
    inner over Y), and the map from a window point back to a pixel. */
module Layout {
  import opened Raster

  /** image.Point */
  datatype Point = Point(X: int, Y: int)

  /** The package globals `min` and `max`: the window is [min.X, max.X) x [min.Y, max.Y). */
  datatype Window = Window(min: Point, max: Point)

  /** min = -(size / 2) and max = size + min on both axes. Go's integer
      division truncates toward zero; for a size of at least zero that is
      the same as Dafny's. */
  function MakeWindow(width: nat, height: nat): (w: Window)
    ensures w.max.X - w.min.X == width && w.max.Y - w.min.Y == height
    ensures w.min.X <= 0 && w.min.Y <= 0
    // symmetric about 0: max == -min for an even size, max == -min + 1 for an odd one
    ensures w.max.X + w.min.X == width % 2 && w.max.Y + w.min.Y == height % 2
  {
    var minX := -(width / 2);
    var minY := -(height / 2);
    Window(Point(minX, minY), Point(width + minX, height + minY))
  }

  function Width(w: Window): int { w.max.X - w.min.X }
  function Height(w: Window): int { w.max.Y - w.min.Y }

  predicate InWindow(p: Point, w: Window) {
    w.min.X <= p.X < w.max.X && w.min.Y <= p.Y < w.max.Y
  }

  /** The pixel a window point is drawn at: (X - min.X, Y - min.Y). */
  function ToPixel(p: Point, w: Window): Point {
    Point(p.X - w.min.X, p.Y - w.min.Y)
  }

  /** ToPixel maps the window onto the raster [0, width) x [0, height)
      exactly, and distinct points onto distinct pixels. */
  lemma ToPixelBijective(w: Window, p: Point, p': Point)
    ensures InWindow(p, w) <==> InBounds(ToPixel(p, w).X, ToPixel(p, w).Y, Width(w), Height(w))
    ensures ToPixel(p, w) == ToPixel(p', w) ==> p == p'
  {
  }

  /** The inner loop: for j := lo; j < hi; j++ visits (x, j). */
  function Column(x: int, lo: int, hi: int): (col: seq<Point>)
    ensures |col| == if lo <= hi then hi - lo else 0
    decreases hi - lo
  {
    if hi <= lo then [] else Column(x, lo, hi - 1) + [Point(x, hi - 1)]
  }

  /** The nested loop: for i := w.min.X; i < xHi; i++ { for j := w.min.Y; j < w.max.Y; j++ { visit (i, j) } }. */
  function Grid(w: Window, xHi: int): seq<Point>
    decreases xHi - w.min.X
  {
    if xHi <= w.min.X then [] else Grid(w, xHi - 1) + Column(xHi - 1, w.min.Y, w.max.Y)
  }

  /** All points of the window in enumeration order. */
  function Enumeration(w: Window): seq<Point> {
    Grid(w, w.max.X)
  }

  /** Lexicographic order on points: X first, then Y. */
  predicate Before(p: Point, q: Point) {
    p.X < q.X || (p.X == q.X && p.Y < q.Y)
  }

  lemma {:induction false} ColumnMembers(x: int, lo: int, hi: int, p: Point)
    ensures p in Column(x, lo, hi) <==> p.X == x && lo <= p.Y < hi
    decreases hi - lo
  {
    if lo < hi {
      ColumnMembers(x, lo, hi - 1, p);
    }
  }

  lemma {:induction false} ColumnSorted(x: int, lo: int, hi: int)
    ensures forall i, j :: 0 <= i < j < |Column(x, lo, hi)| ==> Before(Column(x, lo, hi)[i], Column(x, lo, hi)[j])
    decreases hi - lo
  {
    if lo < hi {
      ColumnSorted(x, lo, hi - 1);
      ColumnMembers(x, lo, hi - 1, Point(x, hi - 1));
      var c := Column(x, lo, hi - 1);
      forall i | 0 <= i < |c| ensures c[i].X == x && c[i].Y < hi - 1 {
        ColumnMembers(x, lo, hi - 1, c[i]);
      }
    }
  }

  /** Grid(w, xHi) holds exactly the window points whose X is below xHi. */
  lemma {:induction false} GridMembers(w: Window, xHi: int, p: Point)
    ensures p in Grid(w, xHi) <==> w.min.X <= p.X < xHi && w.min.Y <= p.Y < w.max.Y
    decreases xHi - w.min.X
  {
    if xHi > w.min.X {
      GridMembers(w, xHi - 1, p);
      ColumnMembers(xHi - 1, w.min.Y, w.max.Y, p);
    }
  }

  /** The enumeration is strictly increasing in (X, Y) order: the outer
      loop runs over X and the inner over Y, and no point comes twice. */
  lemma {:induction false} GridSorted(w: Window, xHi: int)
    ensures forall i, j :: 0 <= i < j < |Grid(w, xHi)| ==> Before(Grid(w, xHi)[i], Grid(w, xHi)[j])
    decreases xHi - w.min.X
  {
    if xHi > w.min.X {
      var g := Grid(w, xHi - 1);
      var c := Column(xHi - 1, w.min.Y, w.max.Y);
      GridSorted(w, xHi - 1);
      ColumnSorted(xHi - 1, w.min.Y, w.max.Y);
      forall i | 0 <= i < |g| ensures g[i].X < xHi - 1 {
        GridMembers(w, xHi - 1, g[i]);
      }
      forall j | 0 <= j < |c| ensures c[j].X == xHi - 1 {
        ColumnMembers(xHi - 1, w.min.Y, w.max.Y, c[j]);
      }
      assert Grid(w, xHi) == g + c;
    }
  }

  lemma {:induction false} GridLength(w: Window, xHi: int)
    requires w.min.Y <= w.max.Y
    ensures |Grid(w, xHi)| == if w.min.X <= xHi then (xHi - w.min.X) * Height(w) else 0
    decreases xHi - w.min.X
  {
    if xHi > w.min.X {
      GridLength(w, xHi - 1);
      assert (xHi - 1 - w.min.X) * Height(w) + Height(w) == (xHi - w.min.X) * Height(w);
    }
  }

  /** Every point of the window is enumerated exactly once, in X-major
      order, and there are width * height of them. */
  lemma EnumerationExact(width: nat, height: nat)
    ensures var w := MakeWindow(width, height);
      && |Enumeration(w)| == width * height
      && (forall p :: p in Enumeration(w) <==> InWindow(p, w))
      && (forall i, j :: 0 <= i < j < |Enumeration(w)| ==> Before(Enumeration(w)[i], Enumeration(w)[j]))
  {
    var w := MakeWindow(width, height);
    GridLength(w, w.max.X);
    GridSorted(w, w.max.X);
    forall p ensures p in Enumeration(w) <==> InWindow(p, w) {
      GridMembers(w, w.max.X, p);
    }
  }

  /** A sequentialised run writes every pixel exactly once: each pixel of
      the width x height raster is the target of exactly one enumerated
      point, and no enumerated point lands outside the raster. */
  lemma EveryPixelExactlyOnce(width: nat, height: nat)
    ensures var w := MakeWindow(width, height); var e := Enumeration(w);
      && (forall k :: 0 <= k < |e| ==> InBounds(ToPixel(e[k], w).X, ToPixel(e[k], w).Y, width, height))
      && (forall q: Point :: InBounds(q.X, q.Y, width, height) ==> exists k :: 0 <= k < |e| && ToPixel(e[k], w) == q)
      && (forall k, k' :: 0 <= k < k' < |e| ==> ToPixel(e[k], w) != ToPixel(e[k'], w))
  {
    var w := MakeWindow(width, height);
    var e := Enumeration(w);
    EnumerationExact(width, height);
    forall k | 0 <= k < |e| ensures InBounds(ToPixel(e[k], w).X, ToPixel(e[k], w).Y, width, height) {
      assert e[k] in e;
    }
    forall q: Point | InBounds(q.X, q.Y, width, height) ensures exists k :: 0 <= k < |e| && ToPixel(e[k], w) == q {
      var p := Point(q.X + w.min.X, q.Y + w.min.Y);
      assert InWindow(p, w);
      var k :| 0 <= k < |e| && e[k] == p;
      assert ToPixel(e[k], w) == q;
    }
  }
}
