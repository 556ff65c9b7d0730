/** The gravitational field of src/physics/equations.py: pairwise Newtonian
    accelerations (`n_body_acceleration`) and the time derivative of a state
    laid out as all positions then all velocities (`n_body_derivative`). */
module Equations {
  import opened Vectors

  /** The force law's parameters. `G` is the gravitational constant, supplied
      by the caller in the unit system of the data. `inverseCube(s)` stands for
      the factor 1/|r|^3 when the squared distance |r|^2 is `s` (the source
      computes `np.linalg.norm(r_vec)**3` and divides by it). It is taken as an
      arbitrary function, so nothing below depends on how the root is taken. */
  datatype Law = Law(G: real, inverseCube: real -> real)

  /** A physical law: G > 0 and 1/|r|^3 > 0 whenever |r| > 0. */
  ghost predicate Attractive(law: Law)
  {
    0.0 < law.G && forall s: real :: 0.0 < s ==> 0.0 < law.inverseCube(s)
  }

  /** |b - a|^2 */
  function SqDist(a: Vec3, b: Vec3): real
  {
    SqNorm(Minus(b, a))
  }

  /** The acceleration body j imparts to body i: G * m_j * (p_j - p_i) / |p_j - p_i|^3.
      A coincident pair exerts none, since the difference vector is zero
      whatever `inverseCube(0)` is (the source computes 0 / 0 there, and the
      whole row becomes NaN). */
  function Pull(law: Law, masses: seq<real>, positions: seq<Vec3>, i: nat, j: nat): (p: Vec3)
    requires i < |positions| && j < |positions| && |positions| == |masses|
    ensures positions[i] == positions[j] ==> p == Origin
  {
    assert positions[i] == positions[j] ==> Minus(positions[j], positions[i]) == Origin;
    Times(law.G * masses[j] * law.inverseCube(SqDist(positions[i], positions[j])),
          Minus(positions[j], positions[i]))
  }

  /** acc[i] after the inner loop has visited j = 0 .. k-1, skipping j == i. */
  function PartialAccel(law: Law, masses: seq<real>, positions: seq<Vec3>, i: nat, k: nat): Vec3
    requires i < |positions| && k <= |positions| && |positions| == |masses|
    decreases k
  {
    if k == 0 then Origin
    else if k - 1 == i then PartialAccel(law, masses, positions, i, k - 1)
    else Plus(PartialAccel(law, masses, positions, i, k - 1), Pull(law, masses, positions, i, k - 1))
  }

  /** acc[i] = sum over j != i of Pull(i, j). A lone body feels no force: the
      only candidate term is the self term, which the loop skips. */
  function Accel(law: Law, masses: seq<real>, positions: seq<Vec3>, i: nat): (a: Vec3)
    requires i < |positions| && |positions| == |masses|
    ensures |positions| == 1 ==> a == Origin
  {
    PartialAccel(law, masses, positions, i, |positions|)
  }

  /** `n_body_acceleration`: a fresh zero (n, 3) array, filled by the double
      loop over ordered pairs i != j. The input positions are a value and are
      not modified. */
  method NBodyAcceleration(law: Law, positions: seq<Vec3>, masses: seq<real>) returns (acc: seq<Vec3>)
    requires |positions| == |masses|
    ensures |acc| == |masses|
    ensures forall i :: 0 <= i < |acc| ==> acc[i] == Accel(law, masses, positions, i)
  {
    var n := |masses|;
    var a := new Vec3[n](_ => Origin);
    for i := 0 to n
      invariant forall k :: 0 <= k < i ==> a[k] == Accel(law, masses, positions, k)
      invariant forall k :: i <= k < n ==> a[k] == Origin
    {
      AccumulateRow(law, positions, masses, a, i);
    }
    acc := a[..];
  }

  /** The inner loop of `n_body_acceleration` for body i: acc[i] grows by one
      pull per j != i; no other row is touched. */
  method AccumulateRow(law: Law, positions: seq<Vec3>, masses: seq<real>, a: array<Vec3>, i: nat)
    requires |positions| == |masses| == a.Length && i < a.Length && a[i] == Origin
    modifies a
    ensures a[i] == Accel(law, masses, positions, i)
    ensures forall k | 0 <= k < a.Length && k != i :: a[k] == old(a[k])
  {
    var n := a.Length;
    for j := 0 to n
      invariant a[i] == PartialAccel(law, masses, positions, i, j)
      invariant forall k | 0 <= k < n && k != i :: a[k] == old(a[k])
    {
      if i != j {
        var rVec := Minus(positions[j], positions[i]);
        var term := Times(law.G * masses[j] * law.inverseCube(SqNorm(rVec)), rVec);
        assert term == Pull(law, masses, positions, i, j);
        a[i] := Plus(a[i], term);
      }
    }
  }

  /** `state[:3n].reshape(n, 3)` */
  function Positions(state: Vector, n: nat): seq<Vec3>
    requires 3 * n <= |state|
  {
    Rows(state, n)
  }

  /** The value of `n_body_derivative(t, state, masses)`: the velocities
      `state[3n:]`, then the flattened accelerations. */
  function Derivative(law: Law, state: Vector, masses: seq<real>): (d: Vector)
    requires |state| == 6 * |masses|
    ensures |d| == |state|
  {
    var n := |masses|;
    var positions := Positions(state, n);
    state[3 * n..] + Flatten(seq(n, i requires 0 <= i < n => Accel(law, masses, positions, i)))
  }

  /** `n_body_derivative`. The time `t` is accepted and not used. */
  method NBodyDerivative(law: Law, t: real, state: Vector, masses: seq<real>) returns (d: Vector)
    requires |state| == 6 * |masses|
    ensures d == Derivative(law, state, masses)
  {
    var n := |masses|;
    var positions := Positions(state, n);
    var velocities := state[3 * n..];
    var accelerations := NBodyAcceleration(law, positions, masses);
    assert accelerations == seq(n, i requires 0 <= i < n => Accel(law, masses, positions, i));
    d := velocities + Flatten(accelerations);
  }

  /** Shape of the derivative: 6n entries; entry k < 3n is the velocity entry
      state[3n + k]; entries 3n + 3i .. 3n + 3i + 2 are body i's acceleration,
      computed from the positions state[:3n] alone. */
  lemma DerivativeLayout(law: Law, state: Vector, masses: seq<real>, i: nat, c: nat)
    requires |state| == 6 * |masses| && i < |masses| && c < 3
    ensures |Derivative(law, state, masses)| == 6 * |masses|
    ensures Derivative(law, state, masses)[3 * i + c] == state[3 * |masses| + 3 * i + c]
    ensures Derivative(law, state, masses)[3 * |masses| + 3 * i + c]
         == Coord(Accel(law, masses, Positions(state, |masses|), i), c)
  {
    var n := |masses|;
    var accs := seq(n, k requires 0 <= k < n => Accel(law, masses, Positions(state, n), k));
    FlattenAt(accs, i, c);
  }

  /** `n_body_derivative` splits back into its parts: the first half is the
      velocities, and the second half reshaped to (n, 3) is exactly the
      `n_body_acceleration` array of the positions. */
  lemma {:induction false} DerivativeReshapes(law: Law, state: Vector, masses: seq<real>)
    requires |state| == 6 * |masses|
    ensures Derivative(law, state, masses)[..3 * |masses|] == state[3 * |masses|..]
    ensures Rows(Derivative(law, state, masses)[3 * |masses|..], |masses|)
         == seq(|masses|, i requires 0 <= i < |masses| => Accel(law, masses, Positions(state, |masses|), i))
  {
    var n := |masses|;
    var accs := seq(n, i requires 0 <= i < n => Accel(law, masses, Positions(state, n), i));
    assert Derivative(law, state, masses) == state[3 * n..] + Flatten(accs);
    assert Derivative(law, state, masses)[3 * n..] == Flatten(accs);
    RowsFlatten(accs);
  }

  /** The acceleration half of the derivative depends on the positions only:
      two states that agree on state[:3n] have the same accelerations. */
  lemma DerivativeDependsOnPositions(law: Law, s1: Vector, s2: Vector, masses: seq<real>)
    requires |s1| == |s2| == 6 * |masses|
    requires s1[..3 * |masses|] == s2[..3 * |masses|]
    ensures Derivative(law, s1, masses)[3 * |masses|..] == Derivative(law, s2, masses)[3 * |masses|..]
  {
    var n := |masses|;
    assert Positions(s1, n) == Positions(s2, n) by {
      forall i | 0 <= i < n
        ensures Positions(s1, n)[i] == Positions(s2, n)[i]
      {
        assert s1[3 * i] == s1[..3 * n][3 * i] == s2[3 * i];
        assert s1[3 * i + 1] == s1[..3 * n][3 * i + 1] == s2[3 * i + 1];
        assert s1[3 * i + 2] == s1[..3 * n][3 * i + 2] == s2[3 * i + 2];
      }
    }
  }

  /** Two bodies at the same place feel no acceleration in the model. */
  lemma CoincidentBodiesAtRest(law: Law, masses: seq<real>, positions: seq<Vec3>, i: nat)
    requires |positions| == |masses| == 2 && i < 2 && positions[0] == positions[1]
    ensures Accel(law, masses, positions, i) == Origin
  {
    assert PartialAccel(law, masses, positions, i, 1) == Origin;
  }

  /** Self-exclusion: body i's own mass never enters its acceleration. */
  lemma {:induction false} AccelIgnoresOwnMass(law: Law, masses: seq<real>, positions: seq<Vec3>, i: nat, m: real)
    requires |positions| == |masses| && i < |positions|
    ensures Accel(law, masses[i := m], positions, i) == Accel(law, masses, positions, i)
  {
    OwnMassPrefix(law, masses, positions, i, m, |positions|);
  }

  lemma {:induction false} OwnMassPrefix(law: Law, masses: seq<real>, positions: seq<Vec3>, i: nat, m: real, k: nat)
    requires |positions| == |masses| && i < |positions| && k <= |positions|
    ensures PartialAccel(law, masses[i := m], positions, i, k) == PartialAccel(law, masses, positions, i, k)
  {
    if k > 0 {
      OwnMassPrefix(law, masses, positions, i, m, k - 1);
      if k - 1 != i {
        PullOtherMass(law, masses, positions, i, m, k - 1);
      }
    }
  }

  /** Pull(i, j) reads only the mass of body j. */
  lemma PullOtherMass(law: Law, masses: seq<real>, positions: seq<Vec3>, i: nat, m: real, j: nat)
    requires |positions| == |masses| && i < |positions| && j < |positions| && j != i
    ensures Pull(law, masses[i := m], positions, i, j) == Pull(law, masses, positions, i, j)
  {
    assert masses[i := m][j] == masses[j];
  }

  function Translate(positions: seq<Vec3>, offset: Vec3): (moved: seq<Vec3>)
  {
    seq(|positions|, k requires 0 <= k < |positions| => Plus(positions[k], offset))
  }

  /** Accelerations depend on relative positions only: shifting every body by
      the same offset changes no acceleration. */
  lemma {:induction false} TranslationInvariant(law: Law, masses: seq<real>, positions: seq<Vec3>, offset: Vec3, i: nat)
    requires |positions| == |masses| && i < |positions|
    ensures Accel(law, masses, Translate(positions, offset), i) == Accel(law, masses, positions, i)
  {
    TranslatedPrefix(law, masses, positions, offset, i, |positions|);
  }

  lemma {:induction false} TranslatedPrefix(law: Law, masses: seq<real>, positions: seq<Vec3>, offset: Vec3, i: nat, k: nat)
    requires |positions| == |masses| && i < |positions| && k <= |positions|
    ensures PartialAccel(law, masses, Translate(positions, offset), i, k) == PartialAccel(law, masses, positions, i, k)
  {
    if k > 0 {
      TranslatedPrefix(law, masses, positions, offset, i, k - 1);
      if k - 1 != i {
        PullTranslated(law, masses, positions, offset, i, k - 1);
      }
    }
  }

  lemma PullTranslated(law: Law, masses: seq<real>, positions: seq<Vec3>, offset: Vec3, i: nat, j: nat)
    requires |positions| == |masses| && i < |positions| && j < |positions|
    ensures Pull(law, masses, Translate(positions, offset), i, j) == Pull(law, masses, positions, i, j)
  {
    var moved := Translate(positions, offset);
    assert Minus(moved[j], moved[i]) == Minus(positions[j], positions[i]);
  }

  lemma SqDistSymmetric(a: Vec3, b: Vec3)
    ensures SqDist(a, b) == SqDist(b, a)
  {
    var d := Minus(b, a);
    var e := Minus(a, b);
    assert e.x * e.x == d.x * d.x && e.y * e.y == d.y * d.y && e.z * e.z == d.z * d.z by {
      assert e == Neg(d);
    }
  }

  /** Newton's third law, mass-weighted: m_i * Pull(i, j) = -(m_j * Pull(j, i)). */
  lemma PairCancels(law: Law, masses: seq<real>, positions: seq<Vec3>, i: nat, j: nat)
    requires |positions| == |masses| && i < |positions| && j < |positions|
    ensures Plus(Times(masses[i], Pull(law, masses, positions, i, j)),
                 Times(masses[j], Pull(law, masses, positions, j, i))) == Origin
  {
    SqDistSymmetric(positions[i], positions[j]);
    var q := law.G * law.inverseCube(SqDist(positions[i], positions[j]));
    var mi, mj := masses[i], masses[j];
    var d := Minus(positions[j], positions[i]);
    assert Pull(law, masses, positions, i, j) == Times(q * mj, d);
    assert Pull(law, masses, positions, j, i) == Times(q * mi, Neg(d));
    assert mi * (q * mj * d.x) + mj * (q * mi * -d.x) == 0.0;
    assert mi * (q * mj * d.y) + mj * (q * mi * -d.y) == 0.0;
    assert mi * (q * mj * d.z) + mj * (q * mi * -d.z) == 0.0;
  }

  /** m_i * acc[i], with acc[i] summed over j < b only. */
  function WeightedRow(law: Law, masses: seq<real>, positions: seq<Vec3>, i: nat, b: nat): Vec3
    requires |positions| == |masses| && i < |positions| && b <= |positions|
  {
    Times(masses[i], PartialAccel(law, masses, positions, i, b))
  }

  /** sum over i < a of m_i * acc[i] (acc summed over j < b). */
  function WeightedTotal(law: Law, masses: seq<real>, positions: seq<Vec3>, a: nat, b: nat): Vec3
    requires |positions| == |masses| && a <= |positions| && b <= |positions|
  {
    if a == 0 then Origin
    else Plus(WeightedTotal(law, masses, positions, a - 1, b), WeightedRow(law, masses, positions, a - 1, b))
  }

  /** sum over i < a of m_i * Pull(i, b): the column of body b. */
  function WeightedColumn(law: Law, masses: seq<real>, positions: seq<Vec3>, a: nat, b: nat): Vec3
    requires |positions| == |masses| && a <= |positions| && b < |positions|
  {
    if a == 0 then Origin
    else Plus(WeightedColumn(law, masses, positions, a - 1, b), Times(masses[a - 1], Pull(law, masses, positions, a - 1, b)))
  }

  lemma {:induction false} TotalAddColumn(law: Law, masses: seq<real>, positions: seq<Vec3>, a: nat, b: nat)
    requires |positions| == |masses| && a <= b < |positions|
    ensures WeightedTotal(law, masses, positions, a, b + 1)
         == Plus(WeightedTotal(law, masses, positions, a, b), WeightedColumn(law, masses, positions, a, b))
  {
    if a > 0 {
      var i := a - 1;
      TotalAddColumn(law, masses, positions, i, b);
      var total := WeightedTotal(law, masses, positions, i, b);
      var column := WeightedColumn(law, masses, positions, i, b);
      var row := WeightedRow(law, masses, positions, i, b);
      var w := Times(masses[i], Pull(law, masses, positions, i, b));
      assert WeightedRow(law, masses, positions, i, b + 1) == Plus(row, w) by {
        assert PartialAccel(law, masses, positions, i, b + 1)
            == Plus(PartialAccel(law, masses, positions, i, b), Pull(law, masses, positions, i, b));
        TimesDistributes(masses[i], PartialAccel(law, masses, positions, i, b), Pull(law, masses, positions, i, b));
      }
      PlusRearrange(total, column, row, w);
    }
  }

  lemma {:induction false} ColumnCancelsRow(law: Law, masses: seq<real>, positions: seq<Vec3>, k: nat, b: nat)
    requires |positions| == |masses| && k <= b < |positions|
    ensures Plus(WeightedColumn(law, masses, positions, k, b), WeightedRow(law, masses, positions, b, k)) == Origin
  {
    if k > 0 {
      var j := k - 1;
      ColumnCancelsRow(law, masses, positions, j, b);
      PairCancels(law, masses, positions, j, b);
      var column, row := WeightedColumn(law, masses, positions, j, b), PartialAccel(law, masses, positions, b, j);
      var there, back := Times(masses[j], Pull(law, masses, positions, j, b)), Pull(law, masses, positions, b, j);
      assert WeightedColumn(law, masses, positions, k, b) == Plus(column, there);
      assert PartialAccel(law, masses, positions, b, k) == Plus(row, back);
      TimesDistributes(masses[b], row, back);
      PlusRearrange(column, there, Times(masses[b], row), Times(masses[b], back));
    }
  }

  lemma {:induction false} TotalVanishes(law: Law, masses: seq<real>, positions: seq<Vec3>, n: nat)
    requires |positions| == |masses| && n <= |positions|
    ensures WeightedTotal(law, masses, positions, n, n) == Origin
  {
    if n > 0 {
      var k := n - 1;
      TotalVanishes(law, masses, positions, k);
      TotalAddColumn(law, masses, positions, k, k);
      ColumnCancelsRow(law, masses, positions, k, k);
    }
  }

  /** Total momentum is conserved: sum over i of m_i * acc[i] is the zero vector. */
  lemma MomentumConserved(law: Law, masses: seq<real>, positions: seq<Vec3>)
    requires |positions| == |masses|
    ensures WeightedTotal(law, masses, positions, |positions|, |positions|) == Origin
  {
    TotalVanishes(law, masses, positions, |positions|);
  }

  lemma TimesDistributes(c: real, a: Vec3, b: Vec3)
    ensures Times(c, Plus(a, b)) == Plus(Times(c, a), Times(c, b))
  {
  }

  lemma PlusRearrange(a: Vec3, b: Vec3, c: Vec3, d: Vec3)
    ensures Plus(Plus(a, b), Plus(c, d)) == Plus(Plus(a, c), Plus(b, d))
  {
  }

  lemma ProductPositive(a: real, b: real)
    requires 0.0 < a && 0.0 < b
    ensures 0.0 < a * b
  {
  }

  /** Two bodies apart, the other one massive: body 0 is pulled
      straight toward body 1, by a positive multiple of p_1 - p_0. */
  lemma TwoBodyAttraction(law: Law, masses: seq<real>, positions: seq<Vec3>)
    requires Attractive(law)
    requires |positions| == |masses| == 2 && 0.0 < masses[1] && 0.0 < SqDist(positions[0], positions[1])
    ensures var k := law.G * masses[1] * law.inverseCube(SqDist(positions[0], positions[1]));
      0.0 < k && Accel(law, masses, positions, 0) == Times(k, Minus(positions[1], positions[0]))
  {
    var ic := law.inverseCube(SqDist(positions[0], positions[1]));
    assert 0.0 < ic;
    ProductPositive(law.G, masses[1]);
    ProductPositive(law.G * masses[1], ic);
    assert Accel(law, masses, positions, 0) == Plus(Origin, Pull(law, masses, positions, 0, 1));
  }
}
