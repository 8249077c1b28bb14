/** The two-stage message pipeline of src/mandelbrotjuliapackage/main.go:
    main enqueues every coordinate, then one stop item per computing worker;
    each computing worker takes items until its first stop, sending one
    result per coordinate; once every computing worker has reported, main
    enqueues one stop item per drawing worker, and each drawing worker
    paints results until its first stop.

    The channels are FIFO sequences held by one object, and the goroutines
    run phase by phase under an arbitrary schedule. In the computing stage
    a receive and the send that ends the kernel are separate steps, so up
    to one point per worker is in flight and results are sent in any order
    the interleaving allows; the model promises them as a multiset. */
module Pipeline {
  import opened Plane
  import Kernel

  /** CoordinateValue: a point to test, or a stop item for a computing worker. */
  datatype CoordinateValue = CoordinateValue(coordinates: Complex, stopSignalFromMain: bool)

  /** workerValue: a computed count, or a stop item for a drawing worker. */
  datatype WorkerValue = WorkerValue(coordinates: Complex, iteration: int, stopSignalFromMain: bool)

  /** The coordinate items main sends: they carry exactly the points, in
      order, and none is a stop item, so a computing worker reading them
      never leaves its loop. */
  function WorkItems(points: seq<Complex>): (items: seq<CoordinateValue>)
    ensures Coordinates(items) == points
    ensures forall i :: 0 <= i < |items| ==> !IsComputingStop(items[i])
    ensures FirstStop(items, IsComputingStop) == |items|
  {
    seq(|points|, i requires 0 <= i < |points| => CoordinateValue(points[i], false))
  }

  /** The k stop items for the computing workers; the i-th carries (i, i). */
  function ComputingStops(k: nat): (stops: seq<CoordinateValue>)
    ensures |stops| == k
    ensures forall i :: 0 <= i < k ==> stops[i].stopSignalFromMain
  {
    seq(k, i requires 0 <= i < k => CoordinateValue(Complex(i as real, i as real), true))
  }

  /** The result a computing worker sends for point c. */
  function Result(c: Complex, maxModulusSize: real, iterations: nat): WorkerValue {
    WorkerValue(c, Kernel.FromOrigin(c, maxModulusSize, iterations), false)
  }

  /** The results for the points, in order. */
  function Results(points: seq<Complex>, maxModulusSize: real, iterations: nat): (rs: seq<WorkerValue>)
    ensures |rs| == |points|
  {
    if points == [] then []
    else Results(points[..|points| - 1], maxModulusSize, iterations) + [Result(points[|points| - 1], maxModulusSize, iterations)]
  }

  /** The stop item main sends to a drawing worker: a zero workerValue with
      the stop flag set. */
  const DrawingStop := WorkerValue(Zero, 0, true)

  /** The m drawing stop items: whichever worker receives any one of them
      leaves its loop at once, painting nothing. */
  function DrawingStops(m: nat): (stops: seq<WorkerValue>)
    ensures |stops| == m
    ensures forall i :: 0 <= i < m ==> FirstStop(stops[i..], IsDrawingStop) == 0
  {
    seq(m, i requires 0 <= i < m => DrawingStop)
  }

  function Repeat(v: int, n: nat): (r: seq<int>)
    ensures |r| == n && forall i :: 0 <= i < n ==> r[i] == v
  {
    seq(n, i requires 0 <= i < n => v)
  }

  /** Go's int(r) for a float: truncation toward zero. */
  function Truncate(r: real): (n: int)
    ensures r >= 0.0 ==> n as real <= r < n as real + 1.0
    ensures r < 0.0 ==> n as real - 1.0 < r <= n as real
  {
    if r >= 0.0 then r.Floor else -((-r).Floor)
  }

  /** Whether a coordinate item tells its computing worker to stop. */
  predicate IsComputingStop(v: CoordinateValue) { v.stopSignalFromMain }

  /** Whether a computed value tells its drawing worker to stop. */
  predicate IsDrawingStop(v: WorkerValue) { v.stopSignalFromMain }

  /** The position where a worker that loops until its first stop item
      stops: the first item of q that isStop accepts, or |q| when there is
      none. */
  function FirstStop<T>(q: seq<T>, isStop: T -> bool): (n: nat)
    ensures n <= |q|
    ensures forall i :: 0 <= i < n ==> !isStop(q[i])
    ensures n < |q| ==> isStop(q[n])
  {
    if q == [] || isStop(q[0]) then 0 else 1 + FirstStop(q[1..], isStop)
  }

  /** The points carried by a run of coordinate items. */
  function Coordinates(items: seq<CoordinateValue>): (points: seq<Complex>)
    ensures |points| == |items|
    ensures forall i :: 0 <= i < |items| ==> points[i] == items[i].coordinates
  {
    seq(|items|, i requires 0 <= i < |items| => items[i].coordinates)
  }

  /** In the queue main builds, the first stop item comes right after the
      last coordinate item, whatever the number of workers (at least one). */
  lemma {:induction false} FirstStopAfterWork(points: seq<Complex>, k: nat)
    requires k > 0
    ensures FirstStop(WorkItems(points) + ComputingStops(k), IsComputingStop) == |points|
    ensures Coordinates((WorkItems(points) + ComputingStops(k))[..|points|]) == points
  {
    var q := WorkItems(points) + ComputingStops(k);
    var n := FirstStop(q, IsComputingStop);
    assert q[|points|].stopSignalFromMain;
    assert n == |points|;
  }

  /** Every result carries a remaining count in [0, iterations] and none is
      a stop item. */
  lemma ResultsBounded(points: seq<Complex>, maxModulusSize: real, iterations: nat)
    ensures forall v :: v in Results(points, maxModulusSize, iterations) ==>
      0 <= v.iteration <= iterations && !v.stopSignalFromMain
  {
  }

  /** The i-th result is the result for the i-th point. */
  lemma {:induction false} ResultsAt(points: seq<Complex>, maxModulusSize: real, iterations: nat, i: nat)
    requires i < |points|
    ensures Results(points, maxModulusSize, iterations)[i] == Result(points[i], maxModulusSize, iterations)
    decreases |points|
  {
    if i < |points| - 1 {
      ResultsAt(points[..|points| - 1], maxModulusSize, iterations, i);
    }
  }

  lemma ResultsSnoc(points: seq<Complex>, c: Complex, maxModulusSize: real, iterations: nat)
    ensures Results(points + [c], maxModulusSize, iterations)
         == Results(points, maxModulusSize, iterations) + [Result(c, maxModulusSize, iterations)]
  {
    assert (points + [c])[..|points|] == points;
  }

  /** The results of two runs of points, one after the other. */
  lemma {:induction false} ResultsAppend(a: seq<Complex>, b: seq<Complex>, maxModulusSize: real, iterations: nat)
    ensures Results(a + b, maxModulusSize, iterations)
         == Results(a, maxModulusSize, iterations) + Results(b, maxModulusSize, iterations)
    decreases |b|
  {
    if b == [] {
      assert a + b == a;
    } else {
      var b', x := b[..|b| - 1], b[|b| - 1];
      assert b == b' + [x];
      assert a + b == (a + b') + [x];
      ResultsAppend(a, b', maxModulusSize, iterations);
      ResultsSnoc(a + b', x, maxModulusSize, iterations);
      ResultsSnoc(b', x, maxModulusSize, iterations);
    }
  }

  /** Taking the j-th point out of a run takes its result out of the
      multiset of results. */
  lemma ResultsRemove(s: seq<Complex>, j: nat, maxModulusSize: real, iterations: nat)
    requires j < |s|
    ensures multiset(Results(s, maxModulusSize, iterations))
         == multiset(Results(s[..j] + s[j + 1..], maxModulusSize, iterations)) + multiset{Result(s[j], maxModulusSize, iterations)}
  {
    assert s == (s[..j] + [s[j]]) + s[j + 1..];
    ResultsAppend(s[..j] + [s[j]], s[j + 1..], maxModulusSize, iterations);
    ResultsSnoc(s[..j], s[j], maxModulusSize, iterations);
    ResultsAppend(s[..j], s[j + 1..], maxModulusSize, iterations);
  }

  /** Receiving the next coordinate item hands the worker the next point
      and leaves the later items queued in order. */
  lemma ReceiveNextItem(points: seq<Complex>, rest: seq<CoordinateValue>, taken: nat)
    requires taken < |points|
    ensures (WorkItems(points)[taken..] + rest)[0].coordinates == points[taken]
    ensures (WorkItems(points)[taken..] + rest)[1..] == WorkItems(points)[taken + 1..] + rest
  {
    var items := WorkItems(points);
    assert Coordinates(items)[taken] == points[taken];
    assert (items[taken..] + rest)[1..] == items[taken + 1..] + rest;
  }

  /** Receiving the next point moves its result from the points still
      queued to the points in flight. */
  lemma ReceiveNextResult(points: seq<Complex>, taken: nat, inFlight: seq<Complex>, maxModulusSize: real, iterations: nat)
    requires taken < |points|
    ensures Results(points[..taken + 1], maxModulusSize, iterations)
         == Results(points[..taken], maxModulusSize, iterations) + [Result(points[taken], maxModulusSize, iterations)]
    ensures Results(inFlight + [points[taken]], maxModulusSize, iterations)
         == Results(inFlight, maxModulusSize, iterations) + [Result(points[taken], maxModulusSize, iterations)]
  {
    assert points[..taken + 1] == points[..taken] + [points[taken]];
    ResultsSnoc(points[..taken], points[taken], maxModulusSize, iterations);
    ResultsSnoc(inFlight, points[taken], maxModulusSize, iterations);
  }

  /** The results sent so far plus the results of the points still in
      flight are, as a multiset, the results of the first `taken` points. */
  ghost predicate InFlightBalance(sent: seq<WorkerValue>, inFlight: seq<Complex>, points: seq<Complex>, taken: nat,
                                  maxModulusSize: real, iterations: nat)
    requires taken <= |points|
  {
    multiset(sent) + multiset(Results(inFlight, maxModulusSize, iterations))
      == multiset(Results(points[..taken], maxModulusSize, iterations))
  }

  /** With every point received and none in flight, exactly the results of
      all points have been sent. */
  lemma AllSent(sent: seq<WorkerValue>, points: seq<Complex>, maxModulusSize: real, iterations: nat)
    requires InFlightBalance(sent, [], points, |points|, maxModulusSize, iterations)
    ensures multiset(sent) == multiset(Results(points, maxModulusSize, iterations))
    ensures |sent| == |points|
  {
    assert points[..|points|] == points;
    assert |multiset(sent)| == |multiset(Results(points, maxModulusSize, iterations))|;
  }

  /** Receiving the next point keeps "results sent plus results in flight
      are the results of the points received". */
  lemma ReceiveKeepsBalance(sent: seq<WorkerValue>, inFlight: seq<Complex>, points: seq<Complex>, taken: nat,
                            maxModulusSize: real, iterations: nat)
    requires taken < |points|
    requires multiset(sent) + multiset(Results(inFlight, maxModulusSize, iterations))
          == multiset(Results(points[..taken], maxModulusSize, iterations))
    ensures multiset(sent) + multiset(Results(inFlight + [points[taken]], maxModulusSize, iterations))
         == multiset(Results(points[..taken + 1], maxModulusSize, iterations))
  {
    ReceiveNextResult(points, taken, inFlight, maxModulusSize, iterations);
  }

  /** Sending the result of the j-th point in flight keeps the same
      balance. */
  lemma SendKeepsBalance(sent: seq<WorkerValue>, inFlight: seq<Complex>, j: nat, total: multiset<WorkerValue>,
                         maxModulusSize: real, iterations: nat)
    requires j < |inFlight|
    requires multiset(sent) + multiset(Results(inFlight, maxModulusSize, iterations)) == total
    ensures multiset(sent + [Result(inFlight[j], maxModulusSize, iterations)])
          + multiset(Results(inFlight[..j] + inFlight[j + 1..], maxModulusSize, iterations)) == total
  {
    ResultsRemove(inFlight, j, maxModulusSize, iterations);
  }

  /** Taking one more coordinate item adds its result at the end. */
  lemma ResultsOfItemsStep(q: seq<CoordinateValue>, pos: nat, maxModulusSize: real, iterations: nat)
    requires pos < |q|
    ensures Results(Coordinates(q[..pos + 1]), maxModulusSize, iterations)
         == Results(Coordinates(q[..pos]), maxModulusSize, iterations) + [Result(q[pos].coordinates, maxModulusSize, iterations)]
  {
    assert Coordinates(q[..pos + 1]) == Coordinates(q[..pos]) + [q[pos].coordinates];
    ResultsSnoc(Coordinates(q[..pos]), q[pos].coordinates, maxModulusSize, iterations);
  }

  /** The worker indices 0 .. k-1. */
  function Workers(k: nat): (ws: set<nat>)
    ensures |ws| == k
    ensures forall w :: w in ws <==> 0 <= w < k
  {
    if k == 0 then {} else Workers(k - 1) + {k - 1}
  }

  /** After the first |takers| stop items of k have gone to the workers
      `takers`, in order: no worker got two, and `live` holds exactly the
      workers that have not got one yet. */
  ghost predicate StopsHandedOut(k: nat, takers: seq<nat>, live: set<nat>) {
    && |takers| <= k
    && |live| == k - |takers|
    && (forall w :: w in live ==> w < k)
    && (forall i :: 0 <= i < |takers| ==> takers[i] < k && takers[i] !in live)
    && (forall w :: 0 <= w < k && w !in live ==> w in takers)
    && (forall i, j :: 0 <= i < j < |takers| ==> takers[i] != takers[j])
  }

  /** While stop items remain, some worker is still running; handing it the
      next stop keeps the bookkeeping. */
  lemma ChooseRunning(k: nat, takers: seq<nat>, live: set<nat>) returns (w: nat)
    requires StopsHandedOut(k, takers, live) && |takers| < k
    ensures w in live && StopsHandedOut(k, takers + [w], live - {w})
  {
    w :| w in live;
  }

  /** Once all k stops are handed out, every worker has got exactly one. */
  lemma AllStopsHandedOut(k: nat, takers: seq<nat>, live: set<nat>)
    requires StopsHandedOut(k, takers, live) && |takers| == k
    ensures forall w :: 0 <= w < k ==> w in takers
  {
    assert live == {};
  }

  lemma RepeatAppend(v: int, n: nat)
    ensures Repeat(v, n + 1) == Repeat(v, n) + [v]
  {
  }

  class Channels {
    var coordinatesValueChannel: seq<CoordinateValue>
    var computedValueChannel: seq<WorkerValue>
    var stopChannelFromComputing: seq<int>
    var stopChannelFromPainter: seq<int>
    /** The values the drawing workers have received and painted, in the
        order they were received. */
    var painted: seq<WorkerValue>

    /** make(chan ...) for each channel; nothing painted yet. */
    constructor ()
      ensures coordinatesValueChannel == [] && computedValueChannel == []
      ensures stopChannelFromComputing == [] && stopChannelFromPainter == [] && painted == []
    {
      coordinatesValueChannel := [];
      computedValueChannel := [];
      stopChannelFromComputing := [];
      stopChannelFromPainter := [];
      painted := [];
    }

    /** computation: the recursive kernel whose only effect is one send of
        the remaining count on computedValueChannel. */
    method Computation(z: Complex, coordinates: Complex, maxModulusSize: real, iterations: nat)
      modifies this
      ensures computedValueChannel ==
        old(computedValueChannel) + [WorkerValue(coordinates, Kernel.Computation(z, coordinates, maxModulusSize, iterations), false)]
      ensures coordinatesValueChannel == old(coordinatesValueChannel) && painted == old(painted)
      ensures stopChannelFromComputing == old(stopChannelFromComputing) && stopChannelFromPainter == old(stopChannelFromPainter)
      decreases iterations
    {
      if iterations == 0 || Escaped(z, maxModulusSize) {
        var result := WorkerValue(coordinates, iterations, false);
        computedValueChannel := computedValueChannel + [result];
        return;
      }
      var z' := Step(z, coordinates);
      Computation(z', coordinates, maxModulusSize, iterations - 1);
    }

    /** An idle computing worker receives the next coordinate item of the
        queue main built: the point at position taken. */
    method ReceivePoint(points: seq<Complex>, ghost rest: seq<CoordinateValue>, taken: nat) returns (c: Complex)
      requires taken < |points| && coordinatesValueChannel == WorkItems(points)[taken..] + rest
      modifies this
      ensures c == points[taken] && coordinatesValueChannel == WorkItems(points)[taken + 1..] + rest
      ensures computedValueChannel == old(computedValueChannel) && painted == old(painted)
      ensures stopChannelFromComputing == old(stopChannelFromComputing) && stopChannelFromPainter == old(stopChannelFromPainter)
    {
      ReceiveNextItem(points, rest, taken);
      var item := ReceiveCoordinates();
      c := item.coordinates;
    }

    /** What a computing worker does with a point it has received: the
        kernel from z = 0, ending in one send of its result. */
    method ComputeAndSend(c: Complex, maxModulusSize: real, iterations: nat)
      modifies this
      ensures computedValueChannel == old(computedValueChannel) + [Result(c, maxModulusSize, iterations)]
      ensures coordinatesValueChannel == old(coordinatesValueChannel) && painted == old(painted)
      ensures stopChannelFromComputing == old(stopChannelFromComputing) && stopChannelFromPainter == old(stopChannelFromPainter)
    {
      Computation(Zero, c, maxModulusSize, iterations);
    }

    /** A computing worker's receive on coordinatesValueChannel. */
    method ReceiveCoordinates() returns (item: CoordinateValue)
      requires coordinatesValueChannel != []
      modifies this
      ensures item == old(coordinatesValueChannel[0]) && coordinatesValueChannel == old(coordinatesValueChannel[1..])
      ensures computedValueChannel == old(computedValueChannel) && painted == old(painted)
      ensures stopChannelFromComputing == old(stopChannelFromComputing) && stopChannelFromPainter == old(stopChannelFromPainter)
    {
      item := coordinatesValueChannel[0];
      coordinatesValueChannel := coordinatesValueChannel[1..];
    }

    /** One pass of computingThread's loop: receive an item; a stop item
        ends the loop and is not computed, any other is computed and its
        result sent. */
    method ComputingStep(maxModulusSize: real, iterations: nat) returns (stopped: bool)
      requires coordinatesValueChannel != []
      modifies this
      ensures var item := old(coordinatesValueChannel[0]);
        && stopped == item.stopSignalFromMain
        && computedValueChannel ==
             old(computedValueChannel) + if stopped then [] else [Result(item.coordinates, maxModulusSize, iterations)]
      ensures coordinatesValueChannel == old(coordinatesValueChannel[1..]) && painted == old(painted)
      ensures stopChannelFromComputing == old(stopChannelFromComputing) && stopChannelFromPainter == old(stopChannelFromPainter)
    {
      var received := ReceiveCoordinates();
      if received.stopSignalFromMain {
        return true;
      }
      ComputeAndSend(received.coordinates, maxModulusSize, iterations);
      return false;
    }

    /** The completion report after computingThread's loop: int of the real
        part of the outer, zero-valued `coordinates` (the loop's own
        `coordinates` shadows it), so always 0. */
    method ReportComputingDone()
      modifies this
      ensures stopChannelFromComputing == old(stopChannelFromComputing) + [0]
      ensures coordinatesValueChannel == old(coordinatesValueChannel) && computedValueChannel == old(computedValueChannel)
      ensures stopChannelFromPainter == old(stopChannelFromPainter) && painted == old(painted)
    {
      var coordinates := CoordinateValue(Zero, false);
      stopChannelFromComputing := stopChannelFromComputing + [Truncate(coordinates.coordinates.re)];
    }

    /** main's producer loops: every coordinate item, then one stop item per
        computing worker. */
    method EnqueueCoordinates(points: seq<Complex>, maxComputingThreads: nat)
      modifies this
      ensures coordinatesValueChannel == old(coordinatesValueChannel) + WorkItems(points) + ComputingStops(maxComputingThreads)
      ensures computedValueChannel == old(computedValueChannel) && painted == old(painted)
      ensures stopChannelFromComputing == old(stopChannelFromComputing) && stopChannelFromPainter == old(stopChannelFromPainter)
    {
      var k := 0;
      while k < |points|
        invariant 0 <= k <= |points|
        invariant coordinatesValueChannel == old(coordinatesValueChannel) + WorkItems(points[..k])
        invariant computedValueChannel == old(computedValueChannel) && painted == old(painted)
        invariant stopChannelFromComputing == old(stopChannelFromComputing) && stopChannelFromPainter == old(stopChannelFromPainter)
      {
        coordinatesValueChannel := coordinatesValueChannel + [CoordinateValue(points[k], false)];
        assert WorkItems(points[..k + 1]) == WorkItems(points[..k]) + [CoordinateValue(points[k], false)];
        k := k + 1;
      }
      assert points[..k] == points;
      var i := 0;
      while i < maxComputingThreads
        invariant 0 <= i <= maxComputingThreads
        invariant coordinatesValueChannel == old(coordinatesValueChannel) + WorkItems(points) + ComputingStops(i)
        invariant computedValueChannel == old(computedValueChannel) && painted == old(painted)
        invariant stopChannelFromComputing == old(stopChannelFromComputing) && stopChannelFromPainter == old(stopChannelFromPainter)
      {
        coordinatesValueChannel := coordinatesValueChannel + [CoordinateValue(Complex(i as real, i as real), true)];
        assert ComputingStops(i + 1) == ComputingStops(i) + [CoordinateValue(Complex(i as real, i as real), true)];
        i := i + 1;
      }
    }

    /** One step of the computing stage: either an idle worker (fewer
        than k hold a point) receives the next coordinate item, or a busy
        worker finishes the kernel for the point it holds and sends the
        result. Either way the results sent plus the results of the points
        in flight stay the results of the points received. */
    method ComputingStageStep(points: seq<Complex>, ghost rest: seq<CoordinateValue>, k: nat,
                              taken: nat, inFlight: seq<Complex>, ghost before: seq<WorkerValue>, ghost sent: seq<WorkerValue>,
                              maxModulusSize: real, iterations: nat)
      returns (taken': nat, inFlight': seq<Complex>, ghost sent': seq<WorkerValue>)
      requires k > 0 && taken <= |points| && |inFlight| <= k && (taken < |points| || inFlight != [])
      requires coordinatesValueChannel == WorkItems(points)[taken..] + rest
      requires computedValueChannel == before + sent
      requires InFlightBalance(sent, inFlight, points, taken, maxModulusSize, iterations)
      modifies this
      ensures taken' <= |points| && |inFlight'| <= k
      ensures 2 * (|points| - taken') + |inFlight'| < 2 * (|points| - taken) + |inFlight|
      ensures coordinatesValueChannel == WorkItems(points)[taken'..] + rest
      ensures computedValueChannel == before + sent'
      ensures InFlightBalance(sent', inFlight', points, taken', maxModulusSize, iterations)
      ensures stopChannelFromComputing == old(stopChannelFromComputing)
      ensures stopChannelFromPainter == old(stopChannelFromPainter) && painted == old(painted)
    {
      var receive: bool :| if receive then taken < |points| && |inFlight| < k else inFlight != [];
      if receive {
        ReceiveKeepsBalance(sent, inFlight, points, taken, maxModulusSize, iterations);
        var c := ReceivePoint(points, rest, taken);
        taken', inFlight', sent' := taken + 1, inFlight + [c], sent;
      } else {
        var j :| 0 <= j < |inFlight|;
        SendKeepsBalance(sent, inFlight, j, multiset(Results(points[..taken], maxModulusSize, iterations)), maxModulusSize, iterations);
        ComputeAndSend(inFlight[j], maxModulusSize, iterations);
        taken', inFlight', sent' := taken, inFlight[..j] + inFlight[j + 1..], sent + [Result(inFlight[j], maxModulusSize, iterations)];
      }
    }

    /** While coordinate items are at the head of the channel, the k
        workers interleave in any way the goroutines can: at each step
        either an idle worker receives the next item, or a busy worker
        finishes the kernel for the item it holds and sends the result.
        A worker holds at most one item, so at most k are in flight.
        Every item is received once, and the results arrive in some
        order: exactly the results of the points, as a multiset. */
    method HandOutItems(points: seq<Complex>, ghost rest: seq<CoordinateValue>, k: nat, maxModulusSize: real, iterations: nat)
      requires k > 0 && coordinatesValueChannel == WorkItems(points) + rest
      modifies this
      ensures coordinatesValueChannel == rest
      ensures |computedValueChannel| == |old(computedValueChannel)| + |points|
      ensures computedValueChannel[..|old(computedValueChannel)|] == old(computedValueChannel)
      ensures multiset(computedValueChannel[|old(computedValueChannel)|..]) == multiset(Results(points, maxModulusSize, iterations))
      ensures stopChannelFromComputing == old(stopChannelFromComputing)
      ensures stopChannelFromPainter == old(stopChannelFromPainter) && painted == old(painted)
    {
      ghost var before := computedValueChannel;
      ghost var sent: seq<WorkerValue> := [];
      var taken := 0;
      var inFlight: seq<Complex> := [];
      assert WorkItems(points)[0..] == WorkItems(points);
      while taken < |points| || inFlight != []
        invariant taken <= |points| && |inFlight| <= k
        invariant coordinatesValueChannel == WorkItems(points)[taken..] + rest
        invariant computedValueChannel == before + sent
        invariant InFlightBalance(sent, inFlight, points, taken, maxModulusSize, iterations)
        invariant stopChannelFromComputing == old(stopChannelFromComputing)
        invariant stopChannelFromPainter == old(stopChannelFromPainter) && painted == old(painted)
        decreases 2 * (|points| - taken) + |inFlight|
      {
        taken, inFlight, sent := ComputingStageStep(points, rest, k, taken, inFlight, before, sent, maxModulusSize, iterations);
      }
      AllSent(sent, points, maxModulusSize, iterations);
      assert WorkItems(points)[taken..] == [];
      assert computedValueChannel[|before|..] == sent;
    }

    /** With only the k stop items left, each is taken by a worker still
        running (`takers[i]` took stop i), which leaves its loop and reports
        completion: every worker takes exactly one stop, and none takes
        anything after it. */
    method HandOutStops(k: nat, maxModulusSize: real, iterations: nat) returns (ghost takers: seq<nat>)
      requires coordinatesValueChannel == ComputingStops(k)
      modifies this
      ensures coordinatesValueChannel == []
      ensures computedValueChannel == old(computedValueChannel)
      ensures stopChannelFromComputing == old(stopChannelFromComputing) + Repeat(0, k)
      ensures stopChannelFromPainter == old(stopChannelFromPainter) && painted == old(painted)
      ensures |takers| == k && forall i :: 0 <= i < k ==> takers[i] < k
      ensures forall i, j :: 0 <= i < j < k ==> takers[i] != takers[j]
      ensures forall w :: 0 <= w < k ==> w in takers
    {
      ghost var live := Workers(k);
      var pos := 0;
      takers := [];
      while coordinatesValueChannel != []
        invariant 0 <= pos <= k && |takers| == pos
        invariant coordinatesValueChannel == ComputingStops(k)[pos..]
        invariant computedValueChannel == old(computedValueChannel)
        invariant stopChannelFromComputing == old(stopChannelFromComputing) + Repeat(0, pos)
        invariant stopChannelFromPainter == old(stopChannelFromPainter) && painted == old(painted)
        invariant StopsHandedOut(k, takers, live)
        decreases |coordinatesValueChannel|
      {
        var stopped := ComputingStep(maxModulusSize, iterations);
        ReportComputingDone();
        RepeatAppend(0, pos);
        ghost var w := ChooseRunning(k, takers, live);
        live := live - {w};
        takers := takers + [w];
        pos := pos + 1;
      }
      AllStopsHandedOut(k, takers, live);
    }

    /** computingThread run alone: it takes items until its first stop
        item, sends one result per coordinate item before it, takes
        nothing after it and reports completion with 0. */
    method ComputingThread(maxModulusSize: real, iterations: nat)
      requires FirstStop(coordinatesValueChannel, IsComputingStop) < |coordinatesValueChannel|
      modifies this
      ensures var q := old(coordinatesValueChannel); var n := FirstStop(q, IsComputingStop);
        && coordinatesValueChannel == q[n + 1..]
        && computedValueChannel == old(computedValueChannel) + Results(Coordinates(q[..n]), maxModulusSize, iterations)
      ensures stopChannelFromComputing == old(stopChannelFromComputing) + [0]
      ensures stopChannelFromPainter == old(stopChannelFromPainter) && painted == old(painted)
    {
      ghost var q := coordinatesValueChannel;
      ghost var n := FirstStop(q, IsComputingStop);
      ghost var pos := 0;
      while true
        invariant 0 <= pos <= n
        invariant coordinatesValueChannel == q[pos..]
        invariant computedValueChannel == old(computedValueChannel) + Results(Coordinates(q[..pos]), maxModulusSize, iterations)
        invariant stopChannelFromComputing == old(stopChannelFromComputing)
        invariant stopChannelFromPainter == old(stopChannelFromPainter) && painted == old(painted)
        decreases |coordinatesValueChannel|
      {
        var stopped := ComputingStep(maxModulusSize, iterations);
        if stopped {
          assert pos == n;
          break;
        }
        ResultsOfItemsStep(q, pos, maxModulusSize, iterations);
        pos := pos + 1;
      }
      ReportComputingDone();
    }

    /** main's join on the computing workers: k receives on
        stopChannelFromComputing. */
    method JoinComputing(k: nat)
      requires |stopChannelFromComputing| >= k
      modifies this
      ensures stopChannelFromComputing == old(stopChannelFromComputing[k..])
      ensures coordinatesValueChannel == old(coordinatesValueChannel) && computedValueChannel == old(computedValueChannel)
      ensures stopChannelFromPainter == old(stopChannelFromPainter) && painted == old(painted)
    {
      var i := 0;
      while i < k
        invariant 0 <= i <= k
        invariant stopChannelFromComputing == old(stopChannelFromComputing[i..])
        invariant coordinatesValueChannel == old(coordinatesValueChannel) && computedValueChannel == old(computedValueChannel)
        invariant stopChannelFromPainter == old(stopChannelFromPainter) && painted == old(painted)
      {
        stopChannelFromComputing := stopChannelFromComputing[1..];
        i := i + 1;
      }
    }

    /** main's second producer loop: one stop item per drawing worker, after
        everything already in computedValueChannel. */
    method EnqueueDrawingStops(m: nat)
      modifies this
      ensures computedValueChannel == old(computedValueChannel) + DrawingStops(m)
      ensures coordinatesValueChannel == old(coordinatesValueChannel) && painted == old(painted)
      ensures stopChannelFromComputing == old(stopChannelFromComputing) && stopChannelFromPainter == old(stopChannelFromPainter)
    {
      var i := 0;
      while i < m
        invariant 0 <= i <= m
        invariant computedValueChannel == old(computedValueChannel) + DrawingStops(i)
        invariant coordinatesValueChannel == old(coordinatesValueChannel) && painted == old(painted)
        invariant stopChannelFromComputing == old(stopChannelFromComputing) && stopChannelFromPainter == old(stopChannelFromPainter)
      {
        computedValueChannel := computedValueChannel + [DrawingStop];
        assert DrawingStops(i + 1) == DrawingStops(i) + [DrawingStop];
        i := i + 1;
      }
    }

    /** One pass of drawingThread's loop: receive a value; a stop item is
        not drawn, and the worker sends 1 on stopChannelFromPainter and
        returns; any other value is painted. */
    method DrawingStep() returns (stopped: bool)
      requires computedValueChannel != []
      modifies this
      ensures var value := old(computedValueChannel[0]);
        && stopped == value.stopSignalFromMain
        && painted == old(painted) + (if stopped then [] else [value])
        && stopChannelFromPainter == old(stopChannelFromPainter) + (if stopped then [1] else [])
      ensures computedValueChannel == old(computedValueChannel[1..])
      ensures coordinatesValueChannel == old(coordinatesValueChannel) && stopChannelFromComputing == old(stopChannelFromComputing)
    {
      var value := computedValueChannel[0];
      computedValueChannel := computedValueChannel[1..];
      if value.stopSignalFromMain {
        stopChannelFromPainter := stopChannelFromPainter + [1];
        return true;
      }
      painted := painted + [value];
      return false;
    }

    /** drawingThread run alone: it paints every value before the first
        stop item, in order, then takes that stop item, reports 1 and
        returns; nothing after the stop item is taken. */
    method DrawingThread()
      requires FirstStop(computedValueChannel, IsDrawingStop) < |computedValueChannel|
      modifies this
      ensures var q := old(computedValueChannel); var n := FirstStop(q, IsDrawingStop);
        && computedValueChannel == q[n + 1..]
        && painted == old(painted) + q[..n]
      ensures stopChannelFromPainter == old(stopChannelFromPainter) + [1]
      ensures coordinatesValueChannel == old(coordinatesValueChannel) && stopChannelFromComputing == old(stopChannelFromComputing)
    {
      ghost var q := computedValueChannel;
      ghost var n := FirstStop(q, IsDrawingStop);
      ghost var pos := 0;
      while true
        invariant 0 <= pos <= n
        invariant computedValueChannel == q[pos..]
        invariant painted == old(painted) + q[..pos]
        invariant stopChannelFromPainter == old(stopChannelFromPainter)
        invariant coordinatesValueChannel == old(coordinatesValueChannel) && stopChannelFromComputing == old(stopChannelFromComputing)
        decreases |computedValueChannel|
      {
        var stopped := DrawingStep();
        if stopped {
          assert pos == n;
          return;
        }
        assert q[..pos + 1] == q[..pos] + [q[pos]];
        pos := pos + 1;
      }
    }

    /** While results are at the head of computedValueChannel, the drawing
        workers receive them one at a time and paint each once, in the
        order received. Which worker receives a result changes nothing
        painted, so no worker is named. */
    method HandOutResults(results: seq<WorkerValue>, ghost rest: seq<WorkerValue>)
      requires computedValueChannel == results + rest
      requires forall i :: 0 <= i < |results| ==> !results[i].stopSignalFromMain
      modifies this
      ensures computedValueChannel == rest
      ensures painted == old(painted) + results
      ensures stopChannelFromPainter == old(stopChannelFromPainter)
      ensures coordinatesValueChannel == old(coordinatesValueChannel) && stopChannelFromComputing == old(stopChannelFromComputing)
    {
      var pos := 0;
      while pos < |results|
        invariant 0 <= pos <= |results|
        invariant computedValueChannel == results[pos..] + rest
        invariant painted == old(painted) + results[..pos]
        invariant stopChannelFromPainter == old(stopChannelFromPainter)
        invariant coordinatesValueChannel == old(coordinatesValueChannel) && stopChannelFromComputing == old(stopChannelFromComputing)
      {
        assert computedValueChannel[0] == results[pos];
        var stopped := DrawingStep();
        assert results[..pos + 1] == results[..pos] + [results[pos]];
        assert computedValueChannel == results[pos + 1..] + rest;
        pos := pos + 1;
      }
      assert results[..pos] == results;
    }

    /** With only the m drawing stop items left, each is taken by a drawing
        worker still running, which reports 1 and returns: every drawing
        worker takes exactly one stop and nothing is painted. */
    method HandOutDrawingStops(m: nat) returns (ghost takers: seq<nat>)
      requires computedValueChannel == DrawingStops(m)
      modifies this
      ensures computedValueChannel == [] && painted == old(painted)
      ensures stopChannelFromPainter == old(stopChannelFromPainter) + Repeat(1, m)
      ensures coordinatesValueChannel == old(coordinatesValueChannel) && stopChannelFromComputing == old(stopChannelFromComputing)
      ensures |takers| == m && forall i :: 0 <= i < m ==> takers[i] < m
      ensures forall i, j :: 0 <= i < j < m ==> takers[i] != takers[j]
      ensures forall w :: 0 <= w < m ==> w in takers
    {
      ghost var live := Workers(m);
      var pos := 0;
      takers := [];
      while computedValueChannel != []
        invariant 0 <= pos <= m && |takers| == pos
        invariant computedValueChannel == DrawingStops(m)[pos..]
        invariant painted == old(painted)
        invariant stopChannelFromPainter == old(stopChannelFromPainter) + Repeat(1, pos)
        invariant coordinatesValueChannel == old(coordinatesValueChannel) && stopChannelFromComputing == old(stopChannelFromComputing)
        invariant StopsHandedOut(m, takers, live)
        decreases |computedValueChannel|
      {
        var stopped := DrawingStep();
        RepeatAppend(1, pos);
        ghost var w := ChooseRunning(m, takers, live);
        live := live - {w};
        takers := takers + [w];
        pos := pos + 1;
      }
      AllStopsHandedOut(m, takers, live);
    }

    /** main's join on the drawing workers: m receives on
        stopChannelFromPainter. */
    method JoinPainters(m: nat)
      requires |stopChannelFromPainter| >= m
      modifies this
      ensures stopChannelFromPainter == old(stopChannelFromPainter[m..])
      ensures coordinatesValueChannel == old(coordinatesValueChannel) && computedValueChannel == old(computedValueChannel)
      ensures stopChannelFromComputing == old(stopChannelFromComputing) && painted == old(painted)
    {
      var i := 0;
      while i < m
        invariant 0 <= i <= m
        invariant stopChannelFromPainter == old(stopChannelFromPainter[i..])
        invariant coordinatesValueChannel == old(coordinatesValueChannel) && computedValueChannel == old(computedValueChannel)
        invariant stopChannelFromComputing == old(stopChannelFromComputing) && painted == old(painted)
      {
        stopChannelFromPainter := stopChannelFromPainter[1..];
        i := i + 1;
      }
    }

    /** main, run phase by phase from empty channels: every point is
        computed once and its result painted once (in the order the
        computing workers sent them, which is any order the interleaving
        allows), every result is queued before every drawing stop item,
        each worker of either stage takes exactly one stop item, and all
        channels end empty. */
    method Run(points: seq<Complex>, maxComputingThreads: nat, maxDrawingThreads: nat,
               maxModulusSize: real, maxIterations: nat)
      returns (ghost drawQueue: seq<WorkerValue>, ghost computingStopTakers: seq<nat>, ghost drawingStopTakers: seq<nat>)
      requires maxComputingThreads > 0 && maxDrawingThreads > 0
      requires coordinatesValueChannel == [] && computedValueChannel == []
      requires stopChannelFromComputing == [] && stopChannelFromPainter == []
      modifies this
      ensures |painted| == |old(painted)| + |points| && painted[..|old(painted)|] == old(painted)
      ensures multiset(painted[|old(painted)|..]) == multiset(Results(points, maxModulusSize, maxIterations))
      ensures drawQueue == painted[|old(painted)|..] + DrawingStops(maxDrawingThreads)
      ensures forall w :: 0 <= w < maxComputingThreads ==> w in computingStopTakers
      ensures forall w :: 0 <= w < maxDrawingThreads ==> w in drawingStopTakers
      ensures |computingStopTakers| == maxComputingThreads && |drawingStopTakers| == maxDrawingThreads
      ensures coordinatesValueChannel == [] && computedValueChannel == []
      ensures stopChannelFromComputing == [] && stopChannelFromPainter == []
    {
      EnqueueCoordinates(points, maxComputingThreads);
      assert coordinatesValueChannel == WorkItems(points) + ComputingStops(maxComputingThreads);
      HandOutItems(points, ComputingStops(maxComputingThreads), maxComputingThreads, maxModulusSize, maxIterations);
      assert computedValueChannel == computedValueChannel[0..];
      var results := computedValueChannel;
      computingStopTakers := HandOutStops(maxComputingThreads, maxModulusSize, maxIterations);
      JoinComputing(maxComputingThreads);
      EnqueueDrawingStops(maxDrawingThreads);
      drawQueue := computedValueChannel;
      ResultsBounded(points, maxModulusSize, maxIterations);
      forall i | 0 <= i < |results| ensures !results[i].stopSignalFromMain {
        assert results[i] in multiset(results);
      }
      ghost var before := painted;
      HandOutResults(results, DrawingStops(maxDrawingThreads));
      assert painted[|before|..] == results;
      drawingStopTakers := HandOutDrawingStops(maxDrawingThreads);
      JoinPainters(maxDrawingThreads);
    }
  }
}
