/** The legacy engine of N_Bodies_Problem.py. Its state `Z` keeps the file
    layout, interleaved per body as [vx, vy, vz, x, y, z] at 6i .. 6i+5, and
    the trajectory is a 2-D array `T` with one column per time point. */
module NBodiesProblem {
  import opened Vectors
  import opened Equations
  import opened CelestialBodies
  import opened Integrators

  /** (Z_i - Z_j)^2 summed over the three position entries. */
  function LegacySqDist(Z: Vector, i: nat, j: nat): real
    requires 6 * i + 6 <= |Z| && 6 * j + 6 <= |Z|
  {
    var dx, dy, dz := Z[6 * i + 3] - Z[6 * j + 3], Z[6 * i + 4] - Z[6 * j + 4], Z[6 * i + 5] - Z[6 * j + 5];
    dx * dx + dy * dy + dz * dz
  }

  /** The summands the inner loop of `F` adds to `a`, `b` and `c` for the
      pair (i, j): M[j] (Z_i - Z_j) / d_ij^3, component by component. A
      coincident pair adds nothing, whatever `inverseCube(0)` is. */
  function LegacyPull(law: Law, Z: Vector, M: seq<real>, i: nat, j: nat): (p: Vec3)
    requires 6 * i + 6 <= |Z| && 6 * j + 6 <= |Z| && j < |M|
    ensures Z[6 * i + 3] == Z[6 * j + 3] && Z[6 * i + 4] == Z[6 * j + 4] && Z[6 * i + 5] == Z[6 * j + 5] ==> p == Origin
  {
    var d := LegacySqDist(Z, i, j);
    Vec3(M[j] * (Z[6 * i + 3] - Z[6 * j + 3]) * law.inverseCube(d),
         M[j] * (Z[6 * i + 4] - Z[6 * j + 4]) * law.inverseCube(d),
         M[j] * (Z[6 * i + 5] - Z[6 * j + 5]) * law.inverseCube(d))
  }

  /** The accumulators (a, b, c) after the inner loop has visited
      j = 0 .. k-1, skipping j == i. */
  function LegacyAccum(law: Law, Z: Vector, M: seq<real>, n: nat, i: nat, k: nat): Vec3
    requires |Z| == 6 * n && |M| == n && i < n && k <= n
  {
    if k == 0 then Origin
    else if k - 1 == i then LegacyAccum(law, Z, M, n, i, k - 1)
    else Plus(LegacyAccum(law, Z, M, n, i, k - 1), LegacyPull(law, Z, M, i, k - 1))
  }

  /** The six entries `F` stores for body i: -G times the accumulated sum
      in the velocity-derivative slots 6i .. 6i+2, the velocity
      Z[6i .. 6i+2] in the position-derivative slots 6i+3 .. 6i+5. */
  function LegacyBlock(law: Law, Z: Vector, M: seq<real>, n: nat, i: nat): (b: Vector)
    requires |Z| == 6 * n && |M| == n && i < n
    ensures |b| == 6
  {
    var acc := Times(-law.G, LegacyAccum(law, Z, M, n, i, n));
    [acc.x, acc.y, acc.z, Z[6 * i], Z[6 * i + 1], Z[6 * i + 2]]
  }

  /** The first 6m entries of `K` once the outer loop of `F` has filled
      bodies 0 .. m-1. */
  function LegacyPrefix(law: Law, Z: Vector, M: seq<real>, n: nat, m: nat): (K: Vector)
    requires |Z| == 6 * n && |M| == n && m <= n
    ensures |K| == 6 * m
  {
    if m == 0 then [] else LegacyPrefix(law, Z, M, n, m - 1) + LegacyBlock(law, Z, M, n, m - 1)
  }

  /** The value `F` returns. */
  function LegacyDerivative(law: Law, Z: Vector, M: seq<real>, n: nat): (K: Vector)
    requires |Z| == 6 * n && |M| == n
    ensures |K| == 6 * n
  {
    LegacyPrefix(law, Z, M, n, n)
  }

  lemma {:induction false} LegacyPrefixAt(law: Law, Z: Vector, M: seq<real>, n: nat, m: nat, i: nat, r: nat)
    requires |Z| == 6 * n && |M| == n && i < m <= n && r < 6
    ensures LegacyPrefix(law, Z, M, n, m)[6 * i + r] == LegacyBlock(law, Z, M, n, i)[r]
  {
    if i < m - 1 {
      LegacyPrefixAt(law, Z, M, n, m - 1, i, r);
    }
  }

  /** Entry 6i + r of `F(Z, M, n, G)` is entry r of body i's block. */
  lemma LegacyAt(law: Law, Z: Vector, M: seq<real>, n: nat, i: nat, r: nat)
    requires |Z| == 6 * n && |M| == n && i < n && r < 6
    ensures LegacyDerivative(law, Z, M, n)[6 * i + r] == LegacyBlock(law, Z, M, n, i)[r]
  {
    LegacyPrefixAt(law, Z, M, n, n, i, r);
  }

  /** The inner loop of `F` for body i: the three accumulators over j != i. */
  method Accumulate(law: Law, Z: Vector, M: seq<real>, n: nat, i: nat) returns (a: real, b: real, c: real)
    requires |Z| == 6 * n && |M| == n && i < n
    ensures Vec3(a, b, c) == LegacyAccum(law, Z, M, n, i, n)
  {
    a, b, c := 0.0, 0.0, 0.0;
    for j := 0 to n
      invariant Vec3(a, b, c) == LegacyAccum(law, Z, M, n, i, j)
    {
      if i != j {
        var d := LegacySqDist(Z, i, j);
        var q := law.inverseCube(d);
        LegacyPullTerms(law, Z, M, i, j, q);
        a := a + M[j] * (Z[6 * i + 3] - Z[6 * j + 3]) * q;
        b := b + M[j] * (Z[6 * i + 4] - Z[6 * j + 4]) * q;
        c := c + M[j] * (Z[6 * i + 5] - Z[6 * j + 5]) * q;
      }
    }
  }

  lemma LegacyPullTerms(law: Law, Z: Vector, M: seq<real>, i: nat, j: nat, q: real)
    requires 6 * i + 6 <= |Z| && 6 * j + 6 <= |Z| && j < |M|
    requires q == law.inverseCube(LegacySqDist(Z, i, j))
    ensures LegacyPull(law, Z, M, i, j)
         == Vec3(M[j] * (Z[6 * i + 3] - Z[6 * j + 3]) * q,
                 M[j] * (Z[6 * i + 4] - Z[6 * j + 4]) * q,
                 M[j] * (Z[6 * i + 5] - Z[6 * j + 5]) * q)
  {
  }

  lemma NegatedAccumulators(law: Law, a: real, b: real, c: real, acc: Vec3)
    requires Vec3(a, b, c) == acc
    ensures Vec3(-law.G * a, -law.G * b, -law.G * c) == Times(-law.G, acc)
  {
  }

  /** The body of the outer loop of `F` for body i: accumulate, negate,
      store six entries of `k`; nothing else in `k` changes. */
  method FillBody(k: array<real>, law: Law, Z: Vector, M: seq<real>, n: nat, i: nat)
    requires |Z| == 6 * n && |M| == n && i < n && k.Length == 6 * n
    modifies k
    ensures k[..6 * i + 6] == old(k[..6 * i]) + LegacyBlock(law, Z, M, n, i)
    ensures k[6 * i + 6..] == old(k[6 * i + 6..])
  {
    var a, b, c := Accumulate(law, Z, M, n, i);
    NegatedAccumulators(law, a, b, c, LegacyAccum(law, Z, M, n, i, n));
    a, b, c := -law.G * a, -law.G * b, -law.G * c;
    StoreBlock(k, 6 * i, a, b, c, Z[6 * i], Z[6 * i + 1], Z[6 * i + 2]);
  }

  /** The six assignments `K[lo + r] = ...` of one body, in the order the
      loop of `F` makes them (0, 3, 1, 4, 2, 5). */
  method StoreBlock(k: array<real>, lo: nat, v0: real, v1: real, v2: real, v3: real, v4: real, v5: real)
    requires lo + 6 <= k.Length
    modifies k
    ensures k[..lo + 6] == old(k[..lo]) + [v0, v1, v2, v3, v4, v5]
    ensures k[lo + 6..] == old(k[lo + 6..])
  {
    ghost var before := k[..];
    k[lo] := v0;
    k[lo + 3] := v3;
    k[lo + 1] := v1;
    k[lo + 4] := v4;
    k[lo + 2] := v2;
    k[lo + 5] := v5;
    assert k[lo .. lo + 6] == [v0, v1, v2, v3, v4, v5];
    ExtendPrefix(before, k[..], lo, [v0, v1, v2, v3, v4, v5]);
  }

  /** Writing `block` at `lo` without touching what comes before extends a
      prefix by `block`. */
  lemma ExtendPrefix(before: Vector, after: Vector, lo: nat, block: Vector)
    requires |before| == |after| && lo + |block| <= |after|
    requires forall m | 0 <= m < lo :: after[m] == before[m]
    requires after[lo .. lo + |block|] == block
    ensures after[..lo + |block|] == before[..lo] + block
  {
    assert after[..lo + |block|] == after[..lo] + after[lo .. lo + |block|];
  }

  /** `F`: a fresh zero array K of 6n entries, filled body by body. */
  method F(law: Law, Z: Vector, M: seq<real>, n: nat) returns (K: Vector)
    requires |Z| == 6 * n && |M| == n
    ensures K == LegacyDerivative(law, Z, M, n)
  {
    var k := new real[6 * n](_ => 0.0);
    for i := 0 to n
      invariant k[..6 * i] == LegacyPrefix(law, Z, M, n, i)
    {
      FillBody(k, law, Z, M, n, i);
    }
    assert k[..] == k[..6 * n];
    K := k[..];
  }

  /** Position-derivative slots copy the velocity: K[6i + 3 + c] == Z[6i + c]. */
  lemma LegacyCopiesVelocity(law: Law, Z: Vector, M: seq<real>, n: nat, i: nat, c: nat)
    requires |Z| == 6 * n && |M| == n && i < n && c < 3
    ensures LegacyDerivative(law, Z, M, n)[6 * i + 3 + c] == Z[6 * i + c]
  {
    LegacyAt(law, Z, M, n, i, 3 + c);
  }

  /** A lone body feels no force. */
  lemma LegacySingleBody(law: Law, Z: Vector, M: seq<real>, c: nat)
    requires |Z| == 6 && |M| == 1 && c < 3
    ensures LegacyDerivative(law, Z, M, 1)[c] == 0.0
  {
    LegacyAt(law, Z, M, 1, 0, c);
    assert LegacyAccum(law, Z, M, 1, 0, 1) == LegacyAccum(law, Z, M, 1, 0, 0) == Origin;
    assert Times(-law.G, Origin) == Origin;
  }

  // ---------------------------------------------------------------------------
  // Agreement with src/physics/equations.py under the layout permutation

  /** `P` lists the positions stored in the file-layout state `Z`. */
  predicate FilePositions(Z: Vector, n: nat, P: seq<Vec3>)
  {
    |Z| == 6 * n && |P| == n &&
    forall j | 0 <= j < n :: P[j] == Vec3(Z[6 * j + 3], Z[6 * j + 4], Z[6 * j + 5])
  }

  lemma LegacyPositions(Z: Vector, n: nat)
    requires |Z| == 6 * n
    ensures FilePositions(Z, n, Positions(FileToState(Z, n), n))
  {
    var P := Positions(FileToState(Z, n), n);
    forall j | 0 <= j < n
      ensures P[j] == Vec3(Z[6 * j + 3], Z[6 * j + 4], Z[6 * j + 5])
    {
      FileToStateAt(Z, n, j, 0);
      FileToStateAt(Z, n, j, 1);
      FileToStateAt(Z, n, j, 2);
    }
  }

  lemma SquareSwap(a: real, b: real)
    ensures (b - a) * (b - a) == (a - b) * (a - b)
  {
  }

  lemma LegacySqDistMatches(Z: Vector, n: nat, P: seq<Vec3>, i: nat, j: nat)
    requires FilePositions(Z, n, P) && i < n && j < n
    ensures SqDist(P[i], P[j]) == LegacySqDist(Z, i, j)
  {
    SquareSwap(Z[6 * i + 3], Z[6 * j + 3]);
    SquareSwap(Z[6 * i + 4], Z[6 * j + 4]);
    SquareSwap(Z[6 * i + 5], Z[6 * j + 5]);
  }

  /** -g (m (p_i - p_j) q) == (g m q) (p_j - p_i) */
  lemma NegatedTerm(g: real, m: real, pi: real, pj: real, q: real, gmq: real)
    requires gmq == g * m * q
    ensures -g * (m * (pi - pj) * q) == gmq * (pj - pi)
  {
  }

  /** Each legacy summand, times -G, is the pull of body j on body i. */
  lemma LegacyPullMatches(law: Law, Z: Vector, M: seq<real>, n: nat, P: seq<Vec3>, i: nat, j: nat)
    requires FilePositions(Z, n, P) && |M| == n && i < n && j < n
    ensures Times(-law.G, LegacyPull(law, Z, M, i, j)) == Pull(law, M, P, i, j)
  {
    LegacySqDistMatches(Z, n, P, i, j);
    var q := law.inverseCube(LegacySqDist(Z, i, j));
    var gmq := law.G * M[j] * q;
    var pi, pj := P[i], P[j];
    assert pi == Vec3(Z[6 * i + 3], Z[6 * i + 4], Z[6 * i + 5]);
    assert pj == Vec3(Z[6 * j + 3], Z[6 * j + 4], Z[6 * j + 5]);
    assert LegacyPull(law, Z, M, i, j)
        == Vec3(M[j] * (pi.x - pj.x) * q, M[j] * (pi.y - pj.y) * q, M[j] * (pi.z - pj.z) * q);
    assert Pull(law, M, P, i, j) == Times(gmq, Minus(pj, pi));
    NegatedPull(law.G, M[j], q, gmq, pi, pj);
  }

  lemma NegatedPull(g: real, m: real, q: real, gmq: real, pi: Vec3, pj: Vec3)
    requires gmq == g * m * q
    ensures Times(-g, Vec3(m * (pi.x - pj.x) * q, m * (pi.y - pj.y) * q, m * (pi.z - pj.z) * q))
         == Times(gmq, Minus(pj, pi))
  {
    NegatedTerm(g, m, pi.x, pj.x, q, gmq);
    NegatedTerm(g, m, pi.y, pj.y, q, gmq);
    NegatedTerm(g, m, pi.z, pj.z, q, gmq);
  }

  /** -G times the legacy accumulators is the partial sum of pulls in
      src/physics/equations.py. */
  lemma {:induction false} LegacyAccumMatches(law: Law, Z: Vector, M: seq<real>, n: nat, P: seq<Vec3>, i: nat, k: nat)
    requires FilePositions(Z, n, P) && |M| == n && i < n && k <= n
    ensures Times(-law.G, LegacyAccum(law, Z, M, n, i, k)) == PartialAccel(law, M, P, i, k)
  {
    if k == 0 {
    } else if k - 1 == i {
      LegacyAccumMatches(law, Z, M, n, P, i, k - 1);
    } else {
      var prev, pull := LegacyAccum(law, Z, M, n, i, k - 1), LegacyPull(law, Z, M, i, k - 1);
      LegacyAccumMatches(law, Z, M, n, P, i, k - 1);
      LegacyPullMatches(law, Z, M, n, P, i, k - 1);
      TimesDistributes(-law.G, prev, pull);
    }
  }

  /** `F` computes the same derivative as `n_body_derivative`: permuting its
      result into the [positions, velocities] layout gives the derivative of
      the permuted state. */
  lemma LegacyAgrees(law: Law, Z: Vector, M: seq<real>, n: nat)
    requires |Z| == 6 * n && |M| == n
    ensures FileToState(LegacyDerivative(law, Z, M, n), n) == Derivative(law, FileToState(Z, n), M)
  {
    var lhs := FileToState(LegacyDerivative(law, Z, M, n), n);
    var rhs := Derivative(law, FileToState(Z, n), M);
    forall i, c | 0 <= i < n && 0 <= c < 3
      ensures Slot(lhs, 0, i, c) == Slot(rhs, 0, i, c)
    {
      LegacyAgreesOnPosition(law, Z, M, n, i, c);
    }
    forall i, c | 0 <= i < n && 0 <= c < 3
      ensures Slot(lhs, 3 * n, i, c) == Slot(rhs, 3 * n, i, c)
    {
      LegacyAgreesOnVelocity(law, Z, M, n, i, c);
    }
    SlotsCover(lhs, rhs, n);
  }

  lemma LegacyAgreesOnPosition(law: Law, Z: Vector, M: seq<real>, n: nat, i: nat, c: nat)
    requires |Z| == 6 * n && |M| == n && i < n && c < 3
    ensures Slot(FileToState(LegacyDerivative(law, Z, M, n), n), 0, i, c)
         == Slot(Derivative(law, FileToState(Z, n), M), 0, i, c)
  {
    FileToStateAt(LegacyDerivative(law, Z, M, n), n, i, c);
    FileToStateAt(Z, n, i, c);
    DerivativeLayout(law, FileToState(Z, n), M, i, c);
    LegacyCopiesVelocity(law, Z, M, n, i, c);
  }

  lemma LegacyAgreesOnVelocity(law: Law, Z: Vector, M: seq<real>, n: nat, i: nat, c: nat)
    requires |Z| == 6 * n && |M| == n && i < n && c < 3
    ensures Slot(FileToState(LegacyDerivative(law, Z, M, n), n), 3 * n, i, c)
         == Slot(Derivative(law, FileToState(Z, n), M), 3 * n, i, c)
  {
    LegacyAccelEntry(law, Z, M, n, i, c);
    LegacyAccelMatches(law, Z, M, n, i);
    DerivativeLayout(law, FileToState(Z, n), M, i, c);
  }

  /** The velocity-derivative slot of F's result, permuted to the state
      layout, is coordinate c of -G times body i's accumulators. */
  lemma LegacyAccelEntry(law: Law, Z: Vector, M: seq<real>, n: nat, i: nat, c: nat)
    requires |Z| == 6 * n && |M| == n && i < n && c < 3
    ensures Slot(FileToState(LegacyDerivative(law, Z, M, n), n), 3 * n, i, c)
         == Coord(Times(-law.G, LegacyAccum(law, Z, M, n, i, n)), c)
  {
    FileToStateAt(LegacyDerivative(law, Z, M, n), n, i, c);
    LegacyAt(law, Z, M, n, i, c);
  }

  /** -G times body i's full accumulators is its modern acceleration. */
  lemma LegacyAccelMatches(law: Law, Z: Vector, M: seq<real>, n: nat, i: nat)
    requires |Z| == 6 * n && |M| == n && i < n
    ensures Times(-law.G, LegacyAccum(law, Z, M, n, i, n)) == Accel(law, M, Positions(FileToState(Z, n), n), i)
  {
    LegacyPositions(Z, n);
    LegacyAccumMatches(law, Z, M, n, Positions(FileToState(Z, n), n), i, n);
  }

  // ---------------------------------------------------------------------------
  // The column-filling drivers

  /** `F` as a derivative function of (t, y); it ignores t. Off the 6n-entry
      states it is never applied. */
  function LegacyField(law: Law, M: seq<real>, n: nat): (real, Vector) -> Vector
    requires |M| == n
  {
    (t: real, y: Vector) => if |y| == 6 * n then LegacyDerivative(law, y, M, n) else y
  }

  lemma LegacyFieldLength(law: Law, M: seq<real>, n: nat)
    requires |M| == n
    ensures PreservesLength(LegacyField(law, M, n), 6 * n)
  {
  }

  /** Column i of `Euler_explicite` from column i - 1. */
  function EulerColumn(law: Law, M: seq<real>, n: nat, pas: real, y: Vector): (r: Vector)
    requires |y| == 6 * n && |M| == n
    ensures |r| == 6 * n
  {
    Add(y, Scale(pas, LegacyDerivative(law, y, M, n)))
  }

  /** Column i of `Runge_Kutta_2` (Heun's method) from column i - 1. */
  function RK2Column(law: Law, M: seq<real>, n: nat, pas: real, y: Vector): (r: Vector)
    requires |y| == 6 * n && |M| == n
    ensures |r| == 6 * n
  {
    var k1 := Add(y, Scale(pas, LegacyDerivative(law, y, M, n)));
    Add(y, Scale(pas / 2.0, Add(LegacyDerivative(law, y, M, n), LegacyDerivative(law, k1, M, n))))
  }

  /** Column i of `Runge_Kutta_4` from column i - 1; here the stages k_i
      already include the factor `pas`. */
  function RK4Column(law: Law, M: seq<real>, n: nat, pas: real, y: Vector): (r: Vector)
    requires |y| == 6 * n && |M| == n
    ensures |r| == 6 * n
  {
    var k1 := Scale(pas, LegacyDerivative(law, y, M, n));
    var k2 := Scale(pas, LegacyDerivative(law, Add(y, Scale(1.0 / 2.0, k1)), M, n));
    var k3 := Scale(pas, LegacyDerivative(law, Add(y, Scale(1.0 / 2.0, k2)), M, n));
    var k4 := Scale(pas, LegacyDerivative(law, Add(y, k3), M, n));
    Add(y, Scale(1.0 / 6.0, Add(Add(Add(k1, Scale(2.0, k2)), Scale(2.0, k3)), k4)))
  }

  /** The legacy Euler column is the Euler integrator's step on `F`. */
  lemma EulerColumnIsEulerStep(law: Law, M: seq<real>, n: nat, pas: real, t: real, y: Vector)
    requires |y| == 6 * n && |M| == n
    ensures PreservesLength(LegacyField(law, M, n), 6 * n)
    ensures EulerColumn(law, M, n, pas, y) == EulerStep(LegacyField(law, M, n), pas, t, y)
  {
    LegacyFieldLength(law, M, n);
  }

  lemma HalfOfScaled(pas: real, v: Vector)
    ensures Scale(1.0 / 2.0, Scale(pas, v)) == Scale(0.5 * pas, v)
  {
    ScaleScale(1.0 / 2.0, pas, v);
  }

  /** y + 1/6 (pas a + 2 pas b + 2 pas c + pas d) == y + pas/6 (a + 2b + 2c + d) */
  lemma SixthOfScaled(pas: real, a: Vector, b: Vector, c: Vector, d: Vector)
    requires |a| == |b| == |c| == |d|
    ensures Scale(1.0 / 6.0, Add(Add(Add(Scale(pas, a), Scale(2.0, Scale(pas, b))), Scale(2.0, Scale(pas, c))), Scale(pas, d)))
         == Scale(pas / 6.0, Add(Add(Add(a, Scale(2.0, b)), Scale(2.0, c)), d))
  {
    var lhs := Scale(1.0 / 6.0, Add(Add(Add(Scale(pas, a), Scale(2.0, Scale(pas, b))), Scale(2.0, Scale(pas, c))), Scale(pas, d)));
    var rhs := Scale(pas / 6.0, Add(Add(Add(a, Scale(2.0, b)), Scale(2.0, c)), d));
    forall k | 0 <= k < |a|
      ensures lhs[k] == rhs[k]
    {
      var x, y, z, w := a[k], b[k], c[k], d[k];
      assert 1.0 / 6.0 * (pas * x + 2.0 * (pas * y) + 2.0 * (pas * z) + pas * w)
          == pas / 6.0 * (x + 2.0 * y + 2.0 * z + w);
    }
  }

  /** The legacy RK4 column is the RK4 integrator's step on `F`: scaling the
      stages by `pas` up front changes nothing. */
  lemma RK4ColumnIsRK4Step(law: Law, M: seq<real>, n: nat, pas: real, t: real, y: Vector)
    requires |y| == 6 * n && |M| == n
    ensures PreservesLength(LegacyField(law, M, n), 6 * n)
    ensures RK4Column(law, M, n, pas, y) == RK4Step(LegacyField(law, M, n), pas, t, y)
  {
    LegacyFieldLength(law, M, n);
    var f := LegacyField(law, M, n);
    var a := LegacyDerivative(law, y, M, n);
    HalfOfScaled(pas, a);
    var b := LegacyDerivative(law, Add(y, Scale(0.5 * pas, a)), M, n);
    assert b == f(t + 0.5 * pas, Add(y, Scale(0.5 * pas, f(t, y))));
    HalfOfScaled(pas, b);
    var c := LegacyDerivative(law, Add(y, Scale(0.5 * pas, b)), M, n);
    assert c == f(t + 0.5 * pas, Add(y, Scale(0.5 * pas, b)));
    var d := LegacyDerivative(law, Add(y, Scale(pas, c)), M, n);
    assert d == f(t + pas, Add(y, Scale(pas, c)));
    assert RK4Slopes(f, pas, t, y) == Add(Add(Add(a, Scale(2.0, b)), Scale(2.0, c)), d);
    SixthOfScaled(pas, a, b, c, d);
  }

  /** In a Heun column each position advances by pas * v + pas^2 / 2 * a,
      where v is the velocity and a the acceleration `F` gives at the start:
      the same position update as velocity Verlet. */
  lemma RK2ColumnPosition(law: Law, M: seq<real>, n: nat, pas: real, y: Vector, i: nat, c: nat)
    requires |y| == 6 * n && |M| == n && i < n && c < 3
    ensures var K := LegacyDerivative(law, y, M, n);
      RK2Column(law, M, n, pas, y)[6 * i + 3 + c]
        == y[6 * i + 3 + c] + pas * y[6 * i + c] + pas * pas / 2.0 * K[6 * i + c]
  {
    var K := LegacyDerivative(law, y, M, n);
    var k1 := Add(y, Scale(pas, K));
    LegacyCopiesVelocity(law, y, M, n, i, c);
    LegacyCopiesVelocity(law, k1, M, n, i, c);
    var j := 6 * i + 3 + c;
    var v, a := y[6 * i + c], K[6 * i + c];
    assert LegacyDerivative(law, k1, M, n)[j] == v + pas * a;
    assert RK2Column(law, M, n, pas, y)[j] == y[j] + pas / 2.0 * (K[j] + LegacyDerivative(law, k1, M, n)[j]);
    HeunPosition(pas, y[j], v, a);
  }

  lemma HeunPosition(pas: real, p: real, v: real, a: real)
    ensures p + pas / 2.0 * (v + (v + pas * a)) == p + pas * v + pas * pas / 2.0 * a
  {
  }

  /** Column `j` of the trajectory array. */
  function Column(T: array2<real>, j: nat): (col: Vector)
    requires j < T.Length1
    reads T
    ensures |col| == T.Length0
  {
    seq(T.Length0, r requires 0 <= r < T.Length0 reads T => T[r, j])
  }

  /** `T[:, j] = v`: every other column is left as it was. */
  method SetColumn(T: array2<real>, j: nat, v: Vector)
    requires j < T.Length1 && |v| == T.Length0
    modifies T
    ensures Column(T, j) == v
    ensures forall m | 0 <= m < T.Length1 && m != j :: Column(T, m) == old(Column(T, m))
  {
    for r := 0 to T.Length0
      invariant forall q | 0 <= q < r :: T[q, j] == v[q]
      invariant forall q, m | 0 <= q < T.Length0 && 0 <= m < T.Length1 && m != j :: T[q, m] == old(T[q, m])
    {
      T[r, j] := v[r];
    }
  }

  /** `Euler_explicite`: fills columns 1 .. len(t) - 1 in place, each from the
      one before, and returns the same array. Column 0 is left as it was. */
  method EulerExplicite(T: array2<real>, t: seq<real>, pas: real, M: seq<real>, n: nat, law: Law)
    returns (result: array2<real>)
    requires T.Length0 == 6 * n && T.Length1 == |t| && |M| == n
    modifies T
    ensures result == T
    ensures |t| > 0 ==> Column(T, 0) == old(Column(T, 0))
    ensures forall j | 1 <= j < |t| :: Column(T, j) == EulerColumn(law, M, n, pas, Column(T, j - 1))
  {
    var i := 1;
    while i < |t|
      invariant 1 <= i
      invariant |t| > 0 ==> Column(T, 0) == old(Column(T, 0))
      invariant forall j | 1 <= j < i && j < |t| :: Column(T, j) == EulerColumn(law, M, n, pas, Column(T, j - 1))
    {
      var y := Column(T, i - 1);
      var K := F(law, y, M, n);
      SetColumn(T, i, Add(y, Scale(pas, K)));
      i := i + 1;
    }
    return T;
  }

  /** `Runge_Kutta_2`, column by column as `Euler_explicite`. */
  method RungeKutta2(T: array2<real>, t: seq<real>, pas: real, M: seq<real>, n: nat, law: Law)
    returns (result: array2<real>)
    requires T.Length0 == 6 * n && T.Length1 == |t| && |M| == n
    modifies T
    ensures result == T
    ensures |t| > 0 ==> Column(T, 0) == old(Column(T, 0))
    ensures forall j | 1 <= j < |t| :: Column(T, j) == RK2Column(law, M, n, pas, Column(T, j - 1))
  {
    var i := 1;
    while i < |t|
      invariant 1 <= i
      invariant |t| > 0 ==> Column(T, 0) == old(Column(T, 0))
      invariant forall j | 1 <= j < i && j < |t| :: Column(T, j) == RK2Column(law, M, n, pas, Column(T, j - 1))
    {
      var y := Column(T, i - 1);
      var Fy := F(law, y, M, n);
      var k1 := Add(y, Scale(pas, Fy));
      var Fk1 := F(law, k1, M, n);
      SetColumn(T, i, Add(y, Scale(pas / 2.0, Add(Fy, Fk1))));
      i := i + 1;
    }
    return T;
  }

  /** `Runge_Kutta_4`, column by column as `Euler_explicite`. */
  method RungeKutta4(T: array2<real>, t: seq<real>, pas: real, M: seq<real>, n: nat, law: Law)
    returns (result: array2<real>)
    requires T.Length0 == 6 * n && T.Length1 == |t| && |M| == n
    modifies T
    ensures result == T
    ensures |t| > 0 ==> Column(T, 0) == old(Column(T, 0))
    ensures forall j | 1 <= j < |t| :: Column(T, j) == RK4Column(law, M, n, pas, Column(T, j - 1))
  {
    var i := 1;
    while i < |t|
      invariant 1 <= i
      invariant |t| > 0 ==> Column(T, 0) == old(Column(T, 0))
      invariant forall j | 1 <= j < i && j < |t| :: Column(T, j) == RK4Column(law, M, n, pas, Column(T, j - 1))
    {
      var y := Column(T, i - 1);
      var F1 := F(law, y, M, n);
      var k1 := Scale(pas, F1);
      var F2 := F(law, Add(y, Scale(1.0 / 2.0, k1)), M, n);
      var k2 := Scale(pas, F2);
      var F3 := F(law, Add(y, Scale(1.0 / 2.0, k2)), M, n);
      var k3 := Scale(pas, F3);
      var F4 := F(law, Add(y, k3), M, n);
      var k4 := Scale(pas, F4);
      SetColumn(T, i, Add(y, Scale(1.0 / 6.0, Add(Add(Add(k1, Scale(2.0, k2)), Scale(2.0, k3)), k4))));
      i := i + 1;
    }
    return T;
  }
}
