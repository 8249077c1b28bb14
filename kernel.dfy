/** The escape-time kernel: the recursive `computation` that returns the
    number of iterations REMAINING when the orbit escapes or the cap runs
    out (not the number consumed). */
module Kernel {
  import opened Plane

  /** computation(z, c, maxModulusSize, iterations): stop at once when no
      iterations are left or |z| exceeds the bound, otherwise step the orbit
      and recurse with one iteration fewer. */
  function Computation(z: Complex, c: Complex, maxModulusSize: real, iterations: nat): (remaining: nat)
    ensures remaining <= iterations
    decreases iterations
  {
    if iterations == 0 || Escaped(z, maxModulusSize) then
      iterations
    else
      Computation(Step(z, c), c, maxModulusSize, iterations - 1)
  }

  /** Nothing is consumed exactly when the cap is zero or z is already
      outside the bound; in every other case at least one step is taken. */
  lemma ComputationStopsAtOnce(z: Complex, c: Complex, bound: real, n: nat)
    ensures Computation(z, c, bound, n) == n <==> (n == 0 || Escaped(z, bound))
  {
    if !(n == 0 || Escaped(z, bound)) {
      assert Computation(z, c, bound, n) == Computation(Step(z, c), c, bound, n - 1) <= n - 1;
    }
  }

  /** The count drawn for point c: the kernel started at z = 0. */
  function FromOrigin(c: Complex, bound: real, n: nat): nat {
    Computation(Zero, c, bound, n)
  }

  /** The orbit of z under z <- z*z + c, after k steps. */
  function Iterate(z: Complex, c: Complex, k: nat): Complex
    decreases k
  {
    if k == 0 then z else Iterate(Step(z, c), c, k - 1)
  }

  /** Reference definition of the remaining count: k is the number of
      steps consumed when the first of these happens: the k-th orbit point
      is outside the bound, or the cap n is reached. */
  ghost predicate StopsAfter(z: Complex, c: Complex, bound: real, n: nat, k: nat) {
    && k <= n
    && (k == n || Escaped(Iterate(z, c, k), bound))
    && forall j :: 0 <= j < k ==> !Escaped(Iterate(z, c, j), bound)
  }

  /** The recursion stops exactly at the first escape (or at the cap):
      `n - Computation(...)` is the number of steps consumed. */
  lemma {:induction false} ComputationStopsAtFirstEscape(z: Complex, c: Complex, bound: real, n: nat)
    ensures StopsAfter(z, c, bound, n, n - Computation(z, c, bound, n))
    decreases n
  {
    var r := Computation(z, c, bound, n);
    if n == 0 || Escaped(z, bound) {
      assert r == n;
      assert Iterate(z, c, 0) == z;
    } else {
      var z' := Step(z, c);
      ComputationStopsAtFirstEscape(z', c, bound, n - 1);
      assert r == Computation(z', c, bound, n - 1);
      var k := n - r;
      assert k == (n - 1 - r) + 1;
      assert Iterate(z, c, k) == Iterate(z', c, k - 1);
      forall j | 0 <= j < k
        ensures !Escaped(Iterate(z, c, j), bound)
      {
        if j > 0 {
          assert Iterate(z, c, j) == Iterate(z', c, j - 1);
        }
      }
    }
  }

  /** The first-escape step is unique. */
  lemma StopsAfterUnique(z: Complex, c: Complex, bound: real, n: nat, k1: nat, k2: nat)
    requires StopsAfter(z, c, bound, n, k1)
    requires StopsAfter(z, c, bound, n, k2)
    ensures k1 == k2
  {
  }

  /** Converse of ComputationStopsAtFirstEscape: whatever step the orbit
      first escapes at determines the remaining count. */
  lemma ComputationFromFirstEscape(z: Complex, c: Complex, bound: real, n: nat, k: nat)
    requires StopsAfter(z, c, bound, n, k)
    ensures Computation(z, c, bound, n) == n - k
  {
    ComputationStopsAtFirstEscape(z, c, bound, n);
    StopsAfterUnique(z, c, bound, n, k, n - Computation(z, c, bound, n));
  }

  /** Called from z = 0 with a bound of at least zero and a positive cap,
      the first check never escapes, so at least one iteration is consumed. */
  lemma FromOriginConsumesOne(c: Complex, bound: real, n: nat)
    requires bound >= 0.0 && n > 0
    ensures FromOrigin(c, bound, n) <= n - 1
  {
    ZeroNotEscaped(bound);
  }

  /** An orbit that starts on a fixed point of the recurrence inside the
      bound never escapes, so the cap runs out and nothing remains. */
  lemma {:induction false} FixedPointExhaustsCap(z: Complex, c: Complex, bound: real, n: nat)
    requires Step(z, c) == z && !Escaped(z, bound)
    ensures Computation(z, c, bound, n) == 0
    decreases n
  {
    if n > 0 {
      FixedPointExhaustsCap(z, c, bound, n - 1);
    }
  }

  /** With c = 0 the orbit of the origin stays at 0 and the cap runs out. */
  lemma OriginIsInTheSet(bound: real, n: nat)
    requires bound >= 0.0
    ensures FromOrigin(Zero, bound, n) == 0
  {
    ZeroNotEscaped(bound);
    StepFromOrigin(Zero);
    FixedPointExhaustsCap(Zero, Zero, bound, n);
  }

  /** An orbit whose first two points stay inside the bound and whose
      third is outside consumes exactly two iterations of any cap n >= 2. */
  lemma EscapesAtSecondStep(z: Complex, c: Complex, bound: real, n: nat)
    requires n >= 2 && !Escaped(z, bound) && !Escaped(Step(z, c), bound)
    requires Escaped(Step(Step(z, c), c), bound)
    ensures Computation(z, c, bound, n) == n - 2
  {
    assert Computation(z, c, bound, n) == Computation(Step(z, c), c, bound, n - 1);
    assert Computation(Step(z, c), c, bound, n - 1) == Computation(Step(Step(z, c), c), c, bound, n - 2);
  }

  /** Second orbit point for c = 3 + 3i: (3+3i)^2 + (3+3i) = 18i + 3+3i. */
  lemma SecondOrbitPoint()
    ensures Step(Complex(3.0, 3.0), Complex(3.0, 3.0)) == Complex(3.0, 21.0)
  {
    assert Mul(Complex(3.0, 3.0), Complex(3.0, 3.0)) == Complex(0.0, 18.0) by {
      assert 3.0 * 3.0 == 9.0;
    }
  }

  /** |3+3i|^2 = 18 is within 6^2 = 36. */
  lemma FirstOrbitPointInside()
    ensures !Escaped(Complex(3.0, 3.0), 6.0)
  {
    assert 3.0 * 3.0 == 9.0;
    assert 6.0 * 6.0 == 36.0;
  }

  /** |3+21i|^2 = 450 exceeds 6^2 = 36. */
  lemma SecondOrbitPointOutside()
    ensures Escaped(Complex(3.0, 21.0), 6.0)
  {
    assert 3.0 * 3.0 == 9.0;
    assert 21.0 * 21.0 == 441.0;
    assert 6.0 * 6.0 == 36.0;
  }

  /** For c = 3 + 3i and bound 6, the orbit 0, 3+3i, 3+21i is outside the
      bound after the second step, so with any cap n >= 2 the count started
      from z = 0 is n - 2: 198 for a cap of 200. The start, the point and
      the bound are parameters fixed by the requires, which keeps the
      recursion from being unfolded on constants. */
  lemma ThreePlusThreeIEscapesAtSecondStep(z: Complex, c: Complex, bound: real, n: nat)
    requires z == Zero && c == Complex(3.0, 3.0) && bound == 6.0 && n >= 2
    ensures Computation(z, c, bound, n) == n - 2
  {
    ZeroNotEscaped(bound);
    StepFromOrigin(c);
    FirstOrbitPointInside();
    SecondOrbitPoint();
    SecondOrbitPointOutside();
    EscapesAtSecondStep(z, c, bound, n);
  }
}
