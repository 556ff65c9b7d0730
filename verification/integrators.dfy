/** The one-step integrators of src/physics/integrators.py. Each advances a
    state `y` at time `t` by the fixed step `dt`, using a derivative function
    `f(t, y)` that is a parameter of the integrator (the simulation passes the
    n-body derivative). Arithmetic is exact. */
module Integrators {
  import opened Wrappers
  import opened Vectors

  /** `f` maps states of width `w` to derivatives of width `w`. */
  ghost predicate PreservesLength(f: (real, Vector) -> Vector, w: nat)
  {
    forall t: real, y: Vector :: |y| == w ==> |f(t, y)| == w
  }

  /** `EulerIntegrator.step`: y + dt * f(t, y). */
  function EulerStep(f: (real, Vector) -> Vector, dt: real, t: real, y: Vector): (r: Vector)
    requires PreservesLength(f, |y|)
    ensures |r| == |y|
  {
    Add(y, Scale(dt, f(t, y)))
  }

  /** k1 + 2 k2 + 2 k3 + k4 of the classical four-stage Runge-Kutta step:
      f at t, twice at t + dt/2 and at t + dt. */
  function RK4Slopes(f: (real, Vector) -> Vector, dt: real, t: real, y: Vector): (r: Vector)
    requires PreservesLength(f, |y|)
    ensures |r| == |y|
  {
    var k1 := f(t, y);
    var k2 := f(t + 0.5 * dt, Add(y, Scale(0.5 * dt, k1)));
    var k3 := f(t + 0.5 * dt, Add(y, Scale(0.5 * dt, k2)));
    var k4 := f(t + dt, Add(y, Scale(dt, k3)));
    Add(Add(Add(k1, Scale(2.0, k2)), Scale(2.0, k3)), k4)
  }

  /** `RK4Integrator.step`: y + dt/6 (k1 + 2 k2 + 2 k3 + k4). */
  function RK4Step(f: (real, Vector) -> Vector, dt: real, t: real, y: Vector): (r: Vector)
    requires PreservesLength(f, |y|)
    ensures |r| == |y|
  {
    Add(y, Scale(dt / 6.0, RK4Slopes(f, dt, t, y)))
  }

  /** `f` is the linear test equation y' = lam * y. */
  ghost predicate IsLinear(f: (real, Vector) -> Vector, lam: real)
  {
    forall t: real, y: Vector :: f(t, y) == Scale(lam, y)
  }

  lemma ScaleOne(y: Vector)
    ensures Scale(1.0, y) == y
  {
  }

  lemma ScaleScale(a: real, b: real, y: Vector)
    ensures Scale(a, Scale(b, y)) == Scale(a * b, y)
  {
    forall i | 0 <= i < |y|
      ensures Scale(a, Scale(b, y))[i] == Scale(a * b, y)[i]
    {
      assert a * (b * y[i]) == (a * b) * y[i];
    }
  }

  lemma AddScales(a: real, b: real, y: Vector)
    ensures Add(Scale(a, y), Scale(b, y)) == Scale(a + b, y)
  {
    forall i | 0 <= i < |y|
      ensures Add(Scale(a, y), Scale(b, y))[i] == Scale(a + b, y)[i]
    {
      assert a * y[i] + b * y[i] == (a + b) * y[i];
    }
  }

  /** y + c * (lam * y) is (1 + c * lam) * y. */
  lemma LinearIncrement(lam: real, c: real, y: Vector)
    ensures Add(y, Scale(c, Scale(lam, y))) == Scale(1.0 + c * lam, y)
  {
    ScaleScale(c, lam, y);
    ScaleOne(y);
    AddScales(1.0, c * lam, y);
  }

  /** On y' = lam * y the Euler step multiplies by 1 + z, z = lam * dt: the
      Taylor series of exp(z) to first order. */
  lemma EulerOnLinear(f: (real, Vector) -> Vector, lam: real, dt: real, t: real, y: Vector)
    requires IsLinear(f, lam)
    ensures PreservesLength(f, |y|)
    ensures EulerStep(f, dt, t, y) == Scale(1.0 + lam * dt, y)
  {
    LinearIncrement(lam, dt, y);
    assert 1.0 + dt * lam == 1.0 + lam * dt;
  }

  /** The RK4 growth factor, exp(z) to fourth order. */
  function RK4Factor(z: real): real
  {
    1.0 + z + z * z / 2.0 + z * z * z / 6.0 + z * z * z * z / 24.0
  }

  lemma RK4FactorStages(lam: real, dt: real, h: real, w: real, c2: real, c3: real, c4: real, total: real)
    requires h == 0.5 * dt && w == dt / 6.0
    requires c2 == 1.0 + h * lam && c3 == 1.0 + h * (lam * c2) && c4 == 1.0 + dt * (lam * c3)
    requires total == lam + 2.0 * (lam * c2) + 2.0 * (lam * c3) + lam * c4
    ensures 1.0 + w * total == RK4Factor(lam * dt)
  {
  }

  /** On y' = lam * y each stage slope is a multiple of y. */
  lemma RK4SlopesOnLinear(f: (real, Vector) -> Vector, lam: real, dt: real, t: real, y: Vector,
                          h: real, c2: real, c3: real, c4: real)
    requires IsLinear(f, lam)
    requires h == 0.5 * dt
    requires c2 == 1.0 + h * lam && c3 == 1.0 + h * (lam * c2) && c4 == 1.0 + dt * (lam * c3)
    ensures PreservesLength(f, |y|)
    ensures RK4Slopes(f, dt, t, y) == Scale(lam + 2.0 * (lam * c2) + 2.0 * (lam * c3) + lam * c4, y)
  {
    var l2 := lam * c2;
    var l3 := lam * c3;
    var l4 := lam * c4;
    var k1 := f(t, y);
    var k2 := f(t + h, Add(y, Scale(h, k1)));
    assert k2 == Scale(l2, y) by {
      assert k1 == Scale(lam, y);
      assert k2 == Scale(lam, Add(y, Scale(h, k1)));
      LinearIncrement(lam, h, y);
      ScaleScale(lam, c2, y);
    }
    var k3 := f(t + h, Add(y, Scale(h, k2)));
    assert k3 == Scale(l3, y) by {
      assert k3 == Scale(lam, Add(y, Scale(h, k2)));
      LinearIncrement(l2, h, y);
      assert c3 == 1.0 + h * l2;
      ScaleScale(lam, c3, y);
    }
    var k4 := f(t + dt, Add(y, Scale(dt, k3)));
    assert k4 == Scale(l4, y) by {
      assert k4 == Scale(lam, Add(y, Scale(dt, k3)));
      LinearIncrement(l3, dt, y);
      assert c4 == 1.0 + dt * l3;
      ScaleScale(lam, c4, y);
    }
    ScaleScale(2.0, l2, y);
    ScaleScale(2.0, l3, y);
    AddScales(lam, 2.0 * l2, y);
    AddScales(lam + 2.0 * l2, 2.0 * l3, y);
    AddScales(lam + 2.0 * l2 + 2.0 * l3, l4, y);
  }

  /** On y' = lam * y the RK4 step multiplies by RK4Factor(lam * dt). */
  lemma RK4OnLinear(f: (real, Vector) -> Vector, lam: real, dt: real, t: real, y: Vector)
    requires IsLinear(f, lam)
    ensures PreservesLength(f, |y|)
    ensures RK4Step(f, dt, t, y) == Scale(RK4Factor(lam * dt), y)
  {
    var h := 0.5 * dt;
    var w := dt / 6.0;
    var c2 := 1.0 + h * lam;
    var c3 := 1.0 + h * (lam * c2);
    var c4 := 1.0 + dt * (lam * c3);
    var total := lam + 2.0 * (lam * c2) + 2.0 * (lam * c3) + lam * c4;
    RK4SlopesOnLinear(f, lam, dt, t, y, h, c2, c3, c4);
    LinearIncrement(total, w, y);
    RK4FactorStages(lam, dt, h, w, c2, c3, c4, total);
  }

  /** When `f` ignores the state, the RK4 step is Simpson's rule for the
      integral of f over [t, t + dt]. */
  lemma RK4IsSimpson(f: (real, Vector) -> Vector, g: real -> Vector, dt: real, t: real, y: Vector)
    requires forall s: real, z: Vector :: f(s, z) == g(s)
    requires forall s: real :: |g(s)| == |y|
    ensures PreservesLength(f, |y|)
    ensures RK4Step(f, dt, t, y)
      == Add(y, Scale(dt / 6.0, Add(Add(g(t), Scale(4.0, g(t + 0.5 * dt))), g(t + dt))))
  {
    var m := g(t + 0.5 * dt);
    assert Add(Scale(2.0, m), Scale(2.0, m)) == Scale(4.0, m) by {
      AddScales(2.0, 2.0, m);
    }
    var a, b := g(t), g(t + dt);
    assert Add(Add(Add(a, Scale(2.0, m)), Scale(2.0, m)), b) == Add(Add(a, Scale(4.0, m)), b);
  }

  /** `VerletIntegrator.step`: the first half of `y` holds positions, the
      second half velocities; accelerations are the second half of `f`. */
  function VerletStep(f: (real, Vector) -> Vector, dt: real, t: real, y: Vector): (r: Vector)
    requires |y| % 2 == 0 && PreservesLength(f, |y|)
    ensures |r| == |y|
  {
    var h := |y| / 2;
    var pos, vel := y[..h], y[h..];
    var acc := f(t, y)[h..];
    var newPos := Add(Add(pos, Scale(dt, vel)), Scale(0.5 * dt * dt, acc));
    var newAcc := f(t + dt, newPos + vel)[h..];
    var newVel := Add(vel, Scale(0.5 * dt, Add(acc, newAcc)));
    newPos + newVel
  }

  /** One coordinate of the position update. */
  function MovedPosition(p: real, v: real, a: real, dt: real): real
  {
    p + dt * v + 0.5 * dt * dt * a
  }

  /** One coordinate of the velocity update, from the old and new accelerations. */
  function MovedVelocity(v: real, a: real, b: real, dt: real): real
  {
    v + 0.5 * dt * (a + b)
  }

  /** The accelerations the forward step averages: at the start and at the
      new positions with the old velocities. */
  function ForwardAccels(f: (real, Vector) -> Vector, dt: real, t: real, y: Vector): (r: (Vector, Vector))
    requires |y| % 2 == 0 && PreservesLength(f, |y|)
    ensures |r.0| == |r.1| == |y| / 2
  {
    var h := |y| / 2;
    (f(t, y)[h..], f(t + dt, VerletStep(f, dt, t, y)[..h] + y[h..])[h..])
  }

  /** The new positions are pos + dt * vel + dt^2 / 2 * acc, with acc taken
      from f(t, y); the new velocities are vel + dt / 2 * (acc + acc'), where
      acc' is what f gives at t + dt on the NEW positions and the OLD
      velocities: (acc, acc') is the pair `ForwardAccels`. */
  lemma VerletHalves(f: (real, Vector) -> Vector, dt: real, t: real, y: Vector)
    requires |y| % 2 == 0 && PreservesLength(f, |y|)
    ensures var h := |y| / 2;
      var r := VerletStep(f, dt, t, y);
      var acc := ForwardAccels(f, dt, t, y);
      && r[..h] == Add(Add(y[..h], Scale(dt, y[h..])), Scale(0.5 * dt * dt, acc.0))
      && r[h..] == Add(y[h..], Scale(0.5 * dt, Add(acc.0, acc.1)))
  {
    var h := |y| / 2;
    var acc := f(t, y)[h..];
    var newPos := Add(Add(y[..h], Scale(dt, y[h..])), Scale(0.5 * dt * dt, acc));
    assert VerletStep(f, dt, t, y)[..h] == newPos;
  }

  /** Undoing the velocity update: a kick of dt with (a, b) followed by one of
      -dt with (b, a) restores the velocities. */
  lemma UndoKick(v: Vector, a: Vector, b: Vector, dt: real)
    requires |v| == |a| == |b|
    ensures Add(Add(v, Scale(0.5 * dt, Add(a, b))), Scale(0.5 * -dt, Add(b, a))) == v
  {
    forall k | 0 <= k < |v|
      ensures Add(Add(v, Scale(0.5 * dt, Add(a, b))), Scale(0.5 * -dt, Add(b, a)))[k] == v[k]
    {
      BackwardVelocity(v[k], a[k], b[k], dt);
    }
  }

  /** Undoing the position update: a drift of dt from (p, v) with
      acceleration a0, then one of -dt from the new positions and velocities
      with acceleration a1, restores the positions. */
  lemma UndoDrift(p: Vector, v: Vector, a0: Vector, a1: Vector, dt: real)
    requires |p| == |v| == |a0| == |a1|
    ensures var p1 := Add(Add(p, Scale(dt, v)), Scale(0.5 * dt * dt, a0));
      var v1 := Add(v, Scale(0.5 * dt, Add(a0, a1)));
      Add(Add(p1, Scale(-dt, v1)), Scale(0.5 * -dt * -dt, a1)) == p
  {
    var p1 := Add(Add(p, Scale(dt, v)), Scale(0.5 * dt * dt, a0));
    var v1 := Add(v, Scale(0.5 * dt, Add(a0, a1)));
    forall k | 0 <= k < |p|
      ensures Add(Add(p1, Scale(-dt, v1)), Scale(0.5 * -dt * -dt, a1))[k] == p[k]
    {
      assert p1[k] == MovedPosition(p[k], v[k], a0[k], dt);
      assert v1[k] == MovedVelocity(v[k], a0[k], a1[k], dt);
      BackwardPosition(p[k], v[k], a0[k], a1[k], dt);
    }
  }

  /** The accelerations `f` returns are `accel` of the positions alone: they
      depend neither on the time nor on the velocities (true of the n-body
      derivative). */
  ghost predicate PositionalForce(f: (real, Vector) -> Vector, accel: Vector -> Vector, w: nat)
    requires PreservesLength(f, w)
  {
    forall t: real, y: Vector :: |y| == w ==> f(t, y)[w / 2..] == accel(y[..w / 2])
  }

  /** A backward step from a forward step's result restores the positions. */
  lemma VerletBackPositions(f: (real, Vector) -> Vector, accel: Vector -> Vector, dt: real, t: real, y: Vector)
    requires |y| % 2 == 0 && PreservesLength(f, |y|) && PositionalForce(f, accel, |y|)
    ensures var h := |y| / 2;
      VerletStep(f, -dt, t + dt, VerletStep(f, dt, t, y))[..h] == y[..h]
  {
    var h := |y| / 2;
    var y1 := VerletStep(f, dt, t, y);
    var (a0, a1) := ForwardAccels(f, dt, t, y);
    assert f(t + dt, y1)[h..] == a1 by {
      assert (y1[..h] + y[h..])[..h] == y1[..h];
    }
    VerletHalves(f, dt, t, y);
    assert |y1| / 2 == h;
    VerletHalves(f, -dt, t + dt, y1);
    UndoDrift(y[..h], y[h..], a0, a1, dt);
  }

  /** Once the positions are back, the backward step sees the forward
      step's two accelerations in swapped order. */
  lemma BackwardAccels(f: (real, Vector) -> Vector, accel: Vector -> Vector, dt: real, t: real, y: Vector)
    requires |y| % 2 == 0 && PreservesLength(f, |y|) && PositionalForce(f, accel, |y|)
    ensures var h := |y| / 2;
      var y1 := VerletStep(f, dt, t, y);
      var y2 := VerletStep(f, -dt, t + dt, y1);
      && ForwardAccels(f, -dt, t + dt, y1).0 == ForwardAccels(f, dt, t, y).1
      && ForwardAccels(f, -dt, t + dt, y1).1 == ForwardAccels(f, dt, t, y).0
  {
    var h := |y| / 2;
    var y1 := VerletStep(f, dt, t, y);
    var y2 := VerletStep(f, -dt, t + dt, y1);
    VerletBackPositions(f, accel, dt, t, y);
    assert (y1[..h] + y[h..])[..h] == y1[..h];
    var z := y2[..h] + y1[h..];
    assert |z| == |y| && z[..h] == y2[..h];
  }

  /** A backward step from a forward step's result restores the velocities. */
  lemma VerletBackVelocities(f: (real, Vector) -> Vector, accel: Vector -> Vector, dt: real, t: real, y: Vector)
    requires |y| % 2 == 0 && PreservesLength(f, |y|) && PositionalForce(f, accel, |y|)
    ensures var h := |y| / 2;
      VerletStep(f, -dt, t + dt, VerletStep(f, dt, t, y))[h..] == y[h..]
  {
    var h := |y| / 2;
    var y1 := VerletStep(f, dt, t, y);
    var (a0, a1) := ForwardAccels(f, dt, t, y);
    BackwardAccels(f, accel, dt, t, y);
    VerletHalves(f, dt, t, y);
    assert |y1| / 2 == h;
    VerletHalves(f, -dt, t + dt, y1);
    UndoKick(y[h..], a0, a1, dt);
  }

  /** Velocity Verlet is time-reversible: when the force depends on the
      positions only, a step of -dt from the result undoes a step of dt. */
  lemma VerletReversible(f: (real, Vector) -> Vector, accel: Vector -> Vector, dt: real, t: real, y: Vector)
    requires |y| % 2 == 0 && PreservesLength(f, |y|) && PositionalForce(f, accel, |y|)
    ensures VerletStep(f, -dt, t + dt, VerletStep(f, dt, t, y)) == y
  {
    var h := |y| / 2;
    var y2 := VerletStep(f, -dt, t + dt, VerletStep(f, dt, t, y));
    VerletBackPositions(f, accel, dt, t, y);
    VerletBackVelocities(f, accel, dt, t, y);
    calc {
      y2;
      y2[..h] + y2[h..];
      y[..h] + y[h..];
      y;
    }
  }

  lemma BackwardPosition(p: real, v: real, a: real, b: real, dt: real)
    ensures MovedPosition(MovedPosition(p, v, a, dt), MovedVelocity(v, a, b, dt), b, -dt) == p
  {
  }

  lemma BackwardVelocity(v: real, a: real, b: real, dt: real)
    ensures MovedVelocity(MovedVelocity(v, a, b, dt), b, a, -dt) == v
  {
  }

  /** The coefficient table of `AdamsBashforthIntegrator.step`; a missing
      order is a `KeyError` there. */
  function Coefficients(order: int): (r: Option<seq<real>>)
    ensures r.Some? <==> 2 <= order <= 4
    ensures r.Some? ==> |r.value| == order
  {
    if order == 2 then Some([3.0 / 2.0, -1.0 / 2.0])
    else if order == 3 then Some([23.0 / 12.0, -16.0 / 12.0, 5.0 / 12.0])
    else if order == 4 then Some([55.0 / 24.0, -59.0 / 24.0, 37.0 / 24.0, -9.0 / 24.0])
    else None
  }

  function Sum(c: seq<real>): real
  {
    if |c| == 0 then 0.0 else c[0] + Sum(c[1..])
  }

  function Power(x: real, m: nat): real
  {
    if m == 0 then 1.0 else x * Power(x, m - 1)
  }

  /** Sum of c[j] * (-j)^m: the weights applied to the monomial (s - t)^m
      sampled at the history's times t - j*dt, in units of dt. */
  function Moment(c: seq<real>, m: nat): real
  {
    MomentFrom(c, 0, m)
  }

  function MomentFrom(c: seq<real>, j: nat, m: nat): real
    decreases |c| - j
  {
    if j >= |c| then 0.0 else c[j] * Power(-(j as real), m) + MomentFrom(c, j + 1, m)
  }

  /** Each row is the k-step Adams-Bashforth rule: it integrates every
      polynomial of degree below k over one step exactly, i.e. the m-th
      moment is 1 / (m + 1). For m = 0 this says each row sums to 1. */
  lemma CoefficientsExact(order: int, m: nat)
    requires 2 <= order <= 4 && m < order
    ensures Moment(Coefficients(order).value, m) == 1.0 / (m as real + 1.0)
    ensures m == 0 ==> Sum(Coefficients(order).value) == 1.0
  {
    var c := Coefficients(order).value;
    MomentUnfold(c, m);
    if m == 0 {
      SumUnfold(c);
      assert Power(0.0, 0) == Power(-1.0, 0) == Power(-2.0, 0) == Power(-3.0, 0) == 1.0;
    } else if m == 1 {
      assert Power(0.0, 1) == 0.0 && Power(-1.0, 1) == -1.0 && Power(-2.0, 1) == -2.0 && Power(-3.0, 1) == -3.0;
    } else if m == 2 {
      assert Power(0.0, 2) == 0.0 && Power(-1.0, 2) == 1.0 && Power(-2.0, 2) == 4.0 && Power(-3.0, 2) == 9.0;
    } else {
      assert Power(0.0, 3) == 0.0 && Power(-1.0, 3) == -1.0 && Power(-2.0, 3) == -8.0 && Power(-3.0, 3) == -27.0;
    }
  }

  /** The moment of a table of two to four coefficients, written out. */
  lemma MomentUnfold(c: seq<real>, m: nat)
    requires 2 <= |c| <= 4
    ensures Moment(c, m) == c[0] * Power(0.0, m) + c[1] * Power(-1.0, m)
                          + (if |c| > 2 then c[2] * Power(-2.0, m) else 0.0)
                          + (if |c| > 3 then c[3] * Power(-3.0, m) else 0.0)
  {
    var n := |c|;
    var tail3 := if n > 3 then c[3] * Power(-3.0, m) else 0.0;
    var tail2 := if n > 2 then c[2] * Power(-2.0, m) else 0.0;
    assert MomentFrom(c, n, m) == 0.0;
    assert n > 3 ==> MomentFrom(c, 3, m) == tail3;
    assert n > 2 ==> MomentFrom(c, 2, m) == tail2 + tail3;
    assert MomentFrom(c, 1, m) == c[1] * Power(-1.0, m) + tail2 + tail3;
  }

  /** The sum of a table of two to four coefficients, written out. */
  lemma SumUnfold(c: seq<real>)
    requires 2 <= |c| <= 4
    ensures Sum(c) == c[0] + c[1] + (if |c| > 2 then c[2] else 0.0) + (if |c| > 3 then c[3] else 0.0)
  {
    var n := |c|;
    assert Sum(c[n..]) == 0.0;
    assert n > 3 ==> Sum(c[3..]) == c[3] + Sum(c[3..][1..]) && c[3..][1..] == c[4..];
    assert n > 2 ==> Sum(c[2..]) == c[2] + Sum(c[2..][1..]) && c[2..][1..] == c[3..];
    assert Sum(c[1..]) == c[1] + Sum(c[1..][1..]) && c[1..][1..] == c[2..];
  }

  /** numpy's `sum(c * d for c, d in zip(coeffs, derivs))`: the zip stops at
      the shorter list; an empty zip sums to zero. */
  function Combine(coeffs: seq<real>, derivs: seq<Vector>, w: nat): (r: Vector)
    requires forall i | 0 <= i < |derivs| :: |derivs[i]| == w
    ensures |r| == w
  {
    if |coeffs| == 0 || |derivs| == 0 then Zeros(w)
    else Add(Scale(coeffs[0], derivs[0]), Combine(coeffs[1..], derivs[1..], w))
  }

  /** `reversed(history)`: newest first. */
  function Reverse<T>(s: seq<T>): (r: seq<T>)
    ensures |r| == |s|
    ensures forall i | 0 <= i < |s| :: r[i] == s[|s| - 1 - i]
  {
    if |s| == 0 then [] else [s[|s| - 1]] + Reverse(s[..|s| - 1])
  }

  /** The leading coefficient weighs the NEWEST derivative. */
  lemma CombineNewestFirst(coeffs: seq<real>, history: seq<Vector>, w: nat)
    requires forall i | 0 <= i < |history| :: |history[i]| == w
    requires |coeffs| > 0 && |history| > 0
    ensures Combine(coeffs, Reverse(history), w)
      == Add(Scale(coeffs[0], history[|history| - 1]), Combine(coeffs[1..], Reverse(history[..|history| - 1]), w))
  {
    var r := Reverse(history);
    assert r[1..] == Reverse(history[..|history| - 1]);
  }

  /** With every derivative equal to `d`, the weighted sum is `Sum(c) * d`
      (as long as there are at least as many derivatives as coefficients). */
  lemma {:induction false} CombineConstant(coeffs: seq<real>, derivs: seq<Vector>, d: Vector)
    requires forall i | 0 <= i < |derivs| :: derivs[i] == d
    requires |coeffs| <= |derivs|
    ensures Combine(coeffs, derivs, |d|) == Scale(Sum(coeffs), d)
  {
    if |coeffs| == 0 {
    } else {
      CombineConstant(coeffs[1..], derivs[1..], d);
      var a, b := coeffs[0], Sum(coeffs[1..]);
      assert Add(Scale(a, d), Scale(b, d)) == Scale(a + b, d) by {
        forall i | 0 <= i < |d|
          ensures Add(Scale(a, d), Scale(b, d))[i] == Scale(a + b, d)[i]
        {
          assert a * d[i] + b * d[i] == (a + b) * d[i];
        }
      }
    }
  }

  /** The last `order` entries of `s` (all of it while shorter; none for a
      non-positive order): what `history` holds after every call. */
  function Recent<T>(s: seq<T>, order: int): (r: seq<T>)
    ensures order <= 0 ==> r == []
    ensures 0 < order ==> |r| == if |s| < order then |s| else order
    ensures exists k | 0 <= k <= |s| :: r == s[k..]
  {
    if order <= 0 then (assert s[|s|..] == []; [])
    else if |s| <= order then (assert s[0..] == s; s)
    else s[|s| - order..]
  }

  /** One `step`: the window slides by one (append, then evict the oldest
      entry only when the list is longer than `order`). */
  lemma RecentSlides<T>(s: seq<T>, x: T, order: int)
    ensures var h := Recent(s, order) + [x];
      Recent(s + [x], order) == if |h| > order then h[1..] else h
  {
  }

  /** The window, oldest or newest first, holds vectors of the common width. */
  lemma RecentWidths(s: seq<Vector>, order: int, w: nat)
    requires forall i | 0 <= i < |s| :: |s[i]| == w
    ensures forall i | 0 <= i < |Recent(s, order)| :: |Recent(s, order)[i]| == w
    ensures forall i | 0 <= i < |Recent(s, order)| :: |Reverse(Recent(s, order))[i]| == w
  {
    var r := Recent(s, order);
    if 0 < order < |s| {
      var k := |s| - order;
      forall i | 0 <= i < order
        ensures |r[i]| == w
      {
        assert r[i] == s[k + i];
      }
    }
  }

  /** `AdamsBashforthIntegrator`: a fixed-order multistep integrator that
      remembers the derivatives of its recent steps. */
  class AdamsBashforth {
    const f: (real, Vector) -> Vector
    const dt: real
    const order: int
    /** State width every call uses (the simulation never changes it). */
    ghost const width: nat
    /** Oldest first; `pop(0)` evicts the front. */
    var history: seq<Vector>
    /** Every derivative ever appended. */
    ghost var evaluated: seq<Vector>

    ghost predicate Valid()
      reads this
    {
      && (forall i | 0 <= i < |evaluated| :: |evaluated[i]| == width)
      && history == Recent(evaluated, order)
    }

    constructor (f: (real, Vector) -> Vector, dt: real, order: int, ghost width: nat)
      ensures Valid()
      ensures this.f == f && this.dt == dt && this.order == order && this.width == width
      ensures history == [] && evaluated == []
    {
      this.f := f;
      this.dt := dt;
      this.order := order;
      this.width := width;
      history := [];
      evaluated := [];
    }

    /** `step(t, y)`: record f(t, y); bootstrap with RK4 while the history is
        short, otherwise apply the coefficient row. */
    method Step(t: real, y: Vector) returns (r: Result<Vector, Error>)
      requires Valid() && |y| == width && PreservesLength(f, width)
      modifies this
      ensures Valid()
      ensures evaluated == old(evaluated) + [f(t, y)]
      ensures |history| == if order <= 0 then 0 else if |evaluated| < order then |evaluated| else order
      ensures |evaluated| < order ==> r == Ok(RK4Step(f, dt, t, y))
      ensures |evaluated| >= order && Coefficients(order).None? ==> r == Err(KeyError)
      ensures |evaluated| >= order && Coefficients(order).Some? ==>
        r == Ok(Add(y, Scale(dt, Combine(Coefficients(order).value, Reverse(history), width))))
    {
      var d := f(t, y);
      assert |d| == width;
      RecentSlides(evaluated, d, order);
      history := history + [d];
      evaluated := evaluated + [d];
      RecentWidths(evaluated, order, width);
      if |history| < order {
        return Ok(RK4Step(f, dt, t, y));
      }
      if |history| > order {
        history := history[1..];
      }
      var coeffs := Coefficients(order);
      if coeffs.None? {
        return Err(KeyError);
      }
      r := Ok(Add(y, Scale(dt, Combine(coeffs.value, Reverse(history), |y|))));
    }
  }

  /** Once warm, an Adams-Bashforth step over a history of equal derivatives
      is the Euler step: each coefficient row sums to 1. */
  lemma WarmStepOnConstantHistory(order: int, dt: real, y: Vector, history: seq<Vector>, d: Vector)
    requires 2 <= order <= 4 && |history| == order && |d| == |y|
    requires forall i | 0 <= i < |history| :: history[i] == d
    ensures Add(y, Scale(dt, Combine(Coefficients(order).value, Reverse(history), |y|)))
      == Add(y, Scale(dt, d))
  {
    var c := Coefficients(order).value;
    CoefficientsExact(order, 0);
    CombineConstant(c, Reverse(history), d);
    assert Scale(1.0, d) == d;
  }
}
