# Escape-time Mandelbrot renderers, modelled in Dafny

This project models the discrete core of four Go programs in the golangMandelbrot repository:

- `src/mandelbrot.go` is the colour renderer. It lays out a symmetric integer window, with `min = -(dim/2)` and `max = dim + min` on each axis. It enumerates every point of the window with an outer loop over X and an inner loop over Y. Each point is mapped to the complex plane and run through a recursive escape-time kernel. The kernel returns the number of iterations **remaining** when the orbit leaves the bound or the cap runs out. That count is drawn at pixel `(X - min.X, Y - min.Y)` as wrapping `uint8` products with the colour factors, with the green and blue factors swapped.
- `mandelbrotjuliapackage/main.go` is the same renderer. It draws in gray, using `uint8(iterations)` on all three channels, with cap 200 and bound 6.
- `src/mandelbrotjulianomultithread/main.go` provides the pure recursive kernel, which returns the remaining count.
- `src/mandelbrotjuliapackage/main.go` is a two-stage message pipeline:
  1. main enqueues every coordinate item, then one stop item per computing worker;
  2. each computing worker sends one result per item until it reaches its first stop item, then reports;
  3. after every report, main enqueues one stop item per drawing worker;
  4. each drawing worker paints results until its first stop item.

Layout of the model:

- `complex.dfy` (`Plane`): complex arithmetic over exact reals. `|z| > B` is decided as `B < 0 or re² + im² > B²`.
- `kernel.dfy` (`Kernel`): the recursive kernel, a reference "first escape" definition, and the lemmas tying the two together.
- `layout.dfy` (`Layout`): the window, the pixel offset and the enumeration order.
- `viewport.dfy` (`Viewport`): the map from window points to the plane.
- `colour.dfy` (`Colour`): `uint8` wrap-around and both palettes.
- `raster.dfy` (`Raster`): `image.RGBA` as a class over a two-dimensional array.
- `render.dfy` (`Render`): the imperative `compute` / `computation` / `draw` of both image renderers.
- `programs.dfy` (`Mandelbrot`, `JuliaPackage`): what each renderer's raster holds.
- `pipeline.dfy` (`Pipeline`): the channels as FIFO sequences held by one object. Worker goroutines are scheduled by arbitrary choice. In the computing stage, receives and sends interleave, so results are promised as a multiset.

For `c = 3 + 3i`, cap 200 and bound 6, the kernel returns 198 (`Kernel.ThreePlusThreeIEscapesAtSecondStep`). The orbit 0, 3+3i, 3+21i is outside the bound after the second step (|3+21i|² = 450 > 36), so two of the 200 iterations are consumed.

## Model

| member | source | states |
|---|---|---|
| `Plane.Step` | src/mandelbrotjulianomultithread/main.go:69 | One iteration, z·z + c. From z = 0 it lands on c (`Plane.StepFromOrigin`). |
| `Plane.Escaped` | src/mandelbrotjulianomultithread/main.go:62-63 | `cmplx.Abs(z) > maxModulusSize`, decided on squares: for any modulus m of z, z escapes exactly when m exceeds the bound (`Plane.EscapedIsModulusAbove`). |
| `Plane.EscapedIsModulusAbove` | src/mandelbrotjulianomultithread/main.go:62-63 | For m >= 0 with m² = re² + im² (the value `cmplx.Abs` returns), `Escaped` holds exactly when m > bound, for negative bounds too. |
| `Plane.ZeroNotEscaped` | src/mandelbrotjulianomultithread/main.go:62-63 | For a bound of at least zero, the origin is never outside it. |
| `Plane.StepFromOrigin` | src/mandelbrotjulianomultithread/main.go:69 | The first step from z = 0 lands on c itself. |
| `Kernel.Computation` | src/mandelbrotjulianomultithread/main.go:60-71 | For a non-negative cap, the recursion terminates and the remaining count never exceeds the cap. |
| `Kernel.ComputationStopsAtOnce` | src/mandelbrotjulianomultithread/main.go:62-66 | The result equals the cap exactly when the cap is 0 or \|z\| exceeds the bound. Otherwise at least one iteration is consumed. With cap 0 the result is 0. |
| `Kernel.ComputationStopsAtFirstEscape` | src/mandelbrotjulianomultithread/main.go:60-71 | `cap - result` steps are consumed. That step is the first at which the orbit point is outside the bound, or the cap if the orbit never leaves it. |
| `Kernel.ComputationFromFirstEscape` | src/mandelbrotjulianomultithread/main.go:60-71 | Converse: if the orbit first escapes after k steps (or k is the cap), the result is `cap - k`. |
| `Kernel.FromOrigin` | src/mandelbrotjulianomultithread/main.go:41 | The kernel started from z = 0, as at this call and at src/mandelbrotjuliapackage/main.go:132. It is at most cap − 1 for bound >= 0 and cap > 0 (`Kernel.FromOriginConsumesOne`). |
| `Kernel.EscapesAtSecondStep` | src/mandelbrotjulianomultithread/main.go:62-70 | An orbit whose first two points are inside the bound and whose third is outside consumes exactly two iterations of any cap n >= 2. |
| `Kernel.FromOriginConsumesOne` | src/mandelbrotjulianomultithread/main.go:41 | Started from z = 0 with a bound of at least 0 and a positive cap, the result is at most cap - 1. |
| `Kernel.FixedPointExhaustsCap` | src/mandelbrotjulianomultithread/main.go:62-70 | An orbit that starts on a fixed point inside the bound never escapes, so the result is 0. |
| `Kernel.OriginIsInTheSet` | src/mandelbrotjulianomultithread/main.go:69-70 | For c = 0, started from z = 0, the orbit stays at 0 and the result is 0. |
| `Kernel.ThreePlusThreeIEscapesAtSecondStep` | src/mandelbrotjulianomultithread/main.go:60-71 | For c = 3+3i and bound 6, the count from z = 0 with any cap n >= 2 is n - 2. The orbit 0, 3+3i, 3+21i leaves the bound after the second step, so a cap of 200 gives 198. |
| `Layout.MakeWindow` | src/mandelbrot.go:60-63 | `max - min` is the width and the height, `min <= 0`, and `max + min` is the parity of each dimension. The same holds at mandelbrotjuliapackage/main.go:60-63. |
| `Layout.ToPixel` | src/mandelbrot.go:132-133 | The pixel `(X − min.X, Y − min.Y)` of a window point. It maps the window one-to-one onto the raster (`Layout.ToPixelBijective`). |
| `Layout.ToPixelBijective` | src/mandelbrot.go:132-133 | A point is in the window iff its pixel `(X - min.X, Y - min.Y)` lies in `[0,width) x [0,height)`. Distinct points give distinct pixels. |
| `Layout.Column` | src/mandelbrot.go:80-83 | The points the inner loop sends, `hi − lo` of them (none if `hi < lo`). Members and order: `Layout.ColumnMembers`, `Layout.ColumnSorted`. |
| `Layout.Grid` | src/mandelbrot.go:79-84 | The points the nested loop has sent once the outer loop reaches `xHi`. Members, order and length: `Layout.GridMembers`, `Layout.GridSorted`, `Layout.GridLength`. |
| `Layout.Enumeration` | src/mandelbrot.go:79-84 | Everything the nested loop sends. It is every window point exactly once, in X-major order (`Layout.EnumerationExact`). |
| `Layout.ColumnMembers` | src/mandelbrot.go:80-83 | The inner loop visits exactly the points `(x, j)` with `lo <= j < hi`. |
| `Layout.ColumnSorted` | src/mandelbrot.go:80-83 | The inner loop visits its points in strictly increasing Y. |
| `Layout.GridMembers` | src/mandelbrot.go:79-84 | After the outer loop has reached `xHi`, exactly the window points with `X < xHi` have been visited. |
| `Layout.GridSorted` | src/mandelbrot.go:79-84 | The nested loop visits points in strictly increasing (X, then Y) order, so no point is visited twice. |
| `Layout.GridLength` | src/mandelbrot.go:79-84 | Each completed column contributes exactly `height` points. |
| `Layout.EnumerationExact` | mandelbrotjuliapackage/main.go:79-84 | The enumeration holds every window point exactly once, `width * height` in all, in X-major order. |
| `Layout.EveryPixelExactlyOnce` | src/mandelbrot.go:132-133 | Under the enumeration, every raster pixel is the target of exactly one enumerated point. |
| `Viewport.PlanePoint` | src/mandelbrot.go:119-120 | The plane point of a window point: `X / -min.X * scale + centerX` and likewise for Y. It stays within `scale` of the centre (`Viewport.ViewportBounds`) and maps (0, 0) to the centre (`Viewport.CentrePixelMapsToCentre`). |
| `Viewport.MappableWindow` | src/mandelbrot.go:119-120 | The divisors `-min.X` and `-min.Y` are non-zero iff width and height are both at least 2. |
| `Viewport.CentrePixelMapsToCentre` | src/mandelbrot.go:119-120 | The centre pixel is window point (0, 0), which maps exactly to `centerX + centerY i`. |
| `Viewport.ViewportBounds` | src/mandelbrot.go:119-120 | Every window point maps into the square of half-side `scale` around the centre. |
| `Colour.Uint8` | src/mandelbrot.go:130 | `uint8(x)` is the byte congruent to x modulo 256 (low eight bits, two's complement). |
| `Colour.FactorColour` | src/mandelbrot.go:130-131 | `draw`'s colour. Its channels are given by `Colour.FactorChannelsWrap`. |
| `Colour.FactorChannelsWrap` | src/mandelbrot.go:130-131 | The channels are R = (n·redFactor) mod 256, G = (n·blueFactor) mod 256, B = (n·greenFactor) mod 256, A = 255. |
| `Colour.WrapExample` | src/mandelbrot.go:131 | The products wrap rather than clamp: a count of 200 with factor 3 gives 88 on every channel. |
| `Colour.GrayColour` | mandelbrotjuliapackage/main.go:130-131 | The gray colour `uint8(iterations)` on R, G and B, with alpha 255. Its channels are given by `Colour.GrayIsRemaining`. |
| `Colour.PixelColour` | src/mandelbrot.go:128-131 | The colour `draw` gives a count under the program's palette: `FactorColour` in src/mandelbrot.go, `GrayColour` in mandelbrotjuliapackage/main.go. Stated per palette by `Mandelbrot.FactorPixel` and `JuliaPackage.GrayImage`. |
| `Colour.GrayIsRemaining` | mandelbrotjuliapackage/main.go:130-131 | For a count in [0, 255], all three gray channels equal the count and alpha is 255. |
| `Raster.Image.constructor` | src/mandelbrot.go:65-67 | A `width x height` raster in which every pixel is the zero colour. |
| `Raster.Image.Set` | src/mandelbrot.go:136 | Inside the bounds, only pixel (x, y) changes, to c. Outside the bounds nothing changes. |
| `Render.RemainingBounds` | src/mandelbrot.go:113-118 | The count drawn for any point lies in [0, maxIterations]. With bound >= 0 and a positive cap it is at most maxIterations - 1. |
| `Render.Draw` | src/mandelbrot.go:128-138 | Only pixel `(X - min.X, Y - min.Y)` changes, to the palette colour of the count. Every other pixel keeps its colour. |
| `Render.Computation` | src/mandelbrot.go:113-125 | The recursive method draws, at the coordinate's pixel and nowhere else, the colour of the pure kernel's count for that coordinate's plane point. |
| `Render.ComputeColumn` | src/mandelbrot.go:80-83 | The inner loop sends exactly the column's points in order and gives each pixel of that column its final colour. Other columns are unchanged. |
| `Render.Compute` | src/mandelbrot.go:52-97 | `compute` builds the `width x height` raster and visits exactly the enumeration. Every pixel ends up with the colour of the kernel's count for its plane point. |
| `Mandelbrot.FactorPixel` | src/mandelbrot.go:128-131 | Under the factor palette, a pixel's channels are the wrapping products of its count (which is below the cap) with red, blue and green. |
| `Mandelbrot.FactorImage` | src/mandelbrot.go:130-131 | Every pixel of a rendered raster holds those wrapping products. |
| `JuliaPackage.GrayImage` | mandelbrotjuliapackage/main.go:128-131 | Under the gray palette with a cap of at most 256, every pixel is `(n, n, n, 255)` with `n` the remaining count, below the cap. |
| `JuliaPackage.Run` | mandelbrotjuliapackage/main.go:55-97 | `main` with cap 200 and bound 6 yields a `width x height` raster whose every pixel is gray at its remaining count, below 200. |
| `Pipeline.CoordinateValue` | src/mandelbrotjuliapackage/main.go:216-219 | The message on coordinatesValueChannel: a point, or a stop item for a computing worker. |
| `Pipeline.WorkerValue` | src/mandelbrotjuliapackage/main.go:203-207 | The message on computedValueChannel: a point with its count, or a stop item for a drawing worker. |
| `Pipeline.WorkItems` | src/mandelbrotjuliapackage/main.go:70-77 | The coordinate items carry exactly the points, in order. None is a stop item, so a computing worker reading them never leaves its loop. |
| `Pipeline.ComputingStops` | src/mandelbrotjuliapackage/main.go:80-85 | Exactly k items, every one a stop item. |
| `Pipeline.DrawingStops` | src/mandelbrotjuliapackage/main.go:93-97 | Exactly m items. Whichever drawing worker receives any one of them leaves its loop at once. |
| `Pipeline.Truncate` | src/mandelbrotjuliapackage/main.go:135 | Go's `int` of a float truncates toward zero. |
| `Pipeline.FirstStop` | src/mandelbrotjuliapackage/main.go:125-130 | Where a worker that loops until its first stop item stops, for computing and drawing workers alike: no earlier item is a stop item, and the item there is one. |
| `Pipeline.FirstStopAfterWork` | src/mandelbrotjuliapackage/main.go:70-85 | In the queue main builds, with k > 0, the first stop item comes right after the last coordinate item, and the items before it carry exactly the points. |
| `Pipeline.Result` | src/mandelbrotjuliapackage/main.go:144-149 | The value sent for point c: c, its count from z = 0 and no stop flag. Bounds in `Pipeline.ResultsBounded`. |
| `Pipeline.Results` | src/mandelbrotjuliapackage/main.go:144-149 | One result per point. The i-th is the i-th point's (`Pipeline.ResultsAt`). |
| `Pipeline.ResultsBounded` | src/mandelbrotjuliapackage/main.go:140-157 | Every forwarded result carries a count in [0, iterations] and is not a stop item. |
| `Pipeline.ResultsAt` | src/mandelbrotjuliapackage/main.go:144-149 | The i-th result is the kernel's result for the i-th point, started from z = 0. |
| `Pipeline.ChooseRunning` | src/mandelbrotjuliapackage/main.go:125-130 | While stop items remain, some worker has not stopped. Handing it the next stop keeps "each stop item to a distinct worker". |
| `Pipeline.AllStopsHandedOut` | src/mandelbrotjuliapackage/main.go:80-85 | Once k stop items have gone to k workers, every worker has received one. |
| `Pipeline.AllSent` | src/mandelbrotjuliapackage/main.go:125-133 | Once every point has been received and no worker holds one, the results sent are exactly the results of all points, as a multiset, one per point. |
| `Pipeline.Channels.constructor` | src/mandelbrotjuliapackage/main.go:52-56 | All channels start empty and nothing is painted. |
| `Pipeline.Channels.Computation` | src/mandelbrotjuliapackage/main.go:140-157 | The recursive method's only effect is one send of the pure kernel's result for its coordinate. |
| `Pipeline.Channels.ComputeAndSend` | src/mandelbrotjuliapackage/main.go:132 | A received point is run through the kernel from z = 0, ending in exactly one send of its result. |
| `Pipeline.Channels.ReceivePoint` | src/mandelbrotjuliapackage/main.go:126 | An idle worker receives the next coordinate item of main's queue, which is the next point. |
| `Pipeline.Channels.ReceiveCoordinates` | src/mandelbrotjuliapackage/main.go:126 | A receive takes the head of the coordinate channel and leaves the rest in order. No other channel changes. |
| `Pipeline.Channels.ComputingStep` | src/mandelbrotjuliapackage/main.go:125-133 | One receive. A stop item is consumed without computing. Any other item appends exactly its result. |
| `Pipeline.Channels.ReportComputingDone` | src/mandelbrotjuliapackage/main.go:123-135 | The completion report is always 0, because it reads the outer zero-valued `coordinates`, which the loop shadows. |
| `Pipeline.Channels.EnqueueCoordinates` | src/mandelbrotjuliapackage/main.go:69-85 | Main appends every coordinate item, then exactly k stop items. |
| `Pipeline.Channels.ComputingThread` | src/mandelbrotjuliapackage/main.go:119-137 | A worker takes the items up to and including its first stop item. It sends one result per coordinate item, in order, and reports 0 once. |
| `Pipeline.Channels.HandOutItems` | src/mandelbrotjuliapackage/main.go:125-133 | The k computing workers interleave receives and sends in any way, with at most one point per worker in flight. Every coordinate item is received once. The results sent are exactly the results of the points, as a multiset, in whatever order they finish. |
| `Pipeline.Channels.ComputingStageStep` | src/mandelbrotjuliapackage/main.go:125-133 | One step of that stage: an idle worker receives the next point, or a busy worker finishes the kernel for its point and sends the result. Results sent plus results in flight stay the results of the points received. Each step makes progress. |
| `Pipeline.Channels.HandOutStops` | src/mandelbrotjuliapackage/main.go:62-64 | With k workers and k stop items, each worker takes exactly one stop item and reports 0 once. |
| `Pipeline.Channels.JoinComputing` | src/mandelbrotjuliapackage/main.go:88-90 | Main receives exactly k reports. |
| `Pipeline.Channels.EnqueueDrawingStops` | src/mandelbrotjuliapackage/main.go:93-97 | Main appends exactly m drawing stop items behind whatever is queued. |
| `Pipeline.Channels.DrawingStep` | src/mandelbrotjuliapackage/main.go:163-185 | A stop item is never painted; it sends exactly one 1 on the painter channel. Any other value is painted. |
| `Pipeline.Channels.DrawingThread` | src/mandelbrotjuliapackage/main.go:161-186 | A drawing worker paints every value before its first stop item, in order, takes that stop, reports 1 and returns. |
| `Pipeline.Channels.HandOutResults` | src/mandelbrotjuliapackage/main.go:163-184 | Every queued result is received by one of the drawing workers and painted exactly once, in the order received. |
| `Pipeline.Channels.HandOutDrawingStops` | src/mandelbrotjuliapackage/main.go:65-67 | With m drawing workers and m stop items, each worker takes exactly one and reports 1. |
| `Pipeline.Channels.JoinPainters` | src/mandelbrotjuliapackage/main.go:100-102 | Main receives exactly m reports. |
| `Pipeline.Channels.Run` | src/mandelbrotjuliapackage/main.go:16-115 | `main` paints exactly the results of all points, as a multiset, in the order the computing workers sent them. Every result is queued before every drawing stop. Every worker of both stages takes exactly one stop item. All channels end empty. |

## Left out

- Concurrency. Goroutines, unbuffered channels, `sync.WaitGroup` and `drawLock` are replaced by a sequential run:
  - in the image renderers, each coordinate is processed as the loop produces it;
  - in the pipeline, each phase is a loop in which an arbitrarily chosen live worker takes the head of its channel.
  Races, deadlock freedom and the interleaving of computing and drawing are not modelled.
- `Pipeline.Channels.Run`: it runs the computing stage to completion before any result is received by a drawing worker. In Go the drawing workers receive results while the computing workers are still sending.
- `Pipeline.Channels.HandOutResults`: `painted` records values in the order the drawing workers receive them. In Go several drawing workers can run their drawing calls in another order after receiving.
- `Pipeline.Channels.HandOutStops`: stop items are received only after every point in flight has been sent. In Go a worker can take its stop while others are still computing. The reports are all 0 and the multiset of sent results is the same, so nothing the model states depends on this.
- `Pipeline.Channels.Run`: it requires at least one worker per stage. With no worker in a stage and at least one point, the Go program deadlocks, and the runtime aborts it. With no computing worker, main's first send at src/mandelbrotjuliapackage/main.go:75 never completes. With no drawing worker, a computing worker's send at line 149 never completes. With no points, the program completes.
- Floating-point complex arithmetic (`complex128`, `cmplx.Abs`). It is replaced by exact reals, and the lemmas hold of that model only.
- A window of width or height 1 is not modelled. There the only X (or Y) is 0, so the map divides 0 by 0 and Go yields NaN. A width or height of 0 is excluded as well (`Render.Renderable`), although Go builds an empty raster for it without ever dividing. The model requires width and height of at least 2.
- The float-stepped loops of src/mandelbrotjuliapackage/main.go:70-71 and src/mandelbrotjulianomultithread/main.go:36-37, together with `getFullCoordinates`. Their point counts depend on rounding. The model enqueues an arbitrary sequence of points.
- The float gray level `float64(iterations)/2/maxIterations` and the `gg` drawing calls of src/mandelbrotjuliapackage/main.go:177-184. The drawing worker records the values it paints, in order.
- `main` of src/mandelbrotjulianomultithread/main.go. It is a float-stepped loop around the kernel that draws with `gg`. Only its kernel call from z = 0 (line 41) is modelled.
- PNG encoding, `os.Create`, `gg.SavePNG` and timing via `time.Now`.
- Closing the channels, and the receive-with-ok in the `computingThread` of src/mandelbrot.go, which returns when the channel is closed. The sequential loop over the enumeration stands in for both.
- `image.RGBA`'s byte layout (`Pix`, `Stride`). The raster is a two-dimensional array of colours, shared by every worker, as the copied `image.RGBA` header shares `Pix`.
- `Kernel.Computation`: negative caps are excluded by the `nat` type. In Go a negative cap only stops when the orbit escapes.
- `Colour.GrayColour`: `uint8(float64(iterations))` is taken as the low eight bits of the count. Go leaves the conversion of an out-of-range float implementation-defined, and the counts drawn (below 200) are in range.
- There is no factor-palette counterpart of `JuliaPackage.Run`. `compute` of src/mandelbrot.go is `Render.Compute` run with a `Factors` palette, and what its raster holds is stated by `Mandelbrot.FactorImage`.
- src/gui.go (Fyne widgets, key handlers, JSON settings, `move`) and golanggui/main.go. They are user interface code outside the renderer.
- The empty `zoomInAt` stubs. They do nothing.
