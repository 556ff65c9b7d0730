/** The simulation driver of the Dash front end and the small index rules
    its callbacks apply (src/visualization/dashboard.py). */
module Dashboard {
  import opened Wrappers
  import opened Vectors
  import opened Equations
  import opened CelestialBodies
  import opened Integrators

  // ---------------------------------------------------------------------------
  // Choosing an integrator

  /** The four entries of the `integrators` table in `run_simulation`. */
  datatype Method = Euler | RK4 | Verlet | Adams

  /** The key each integrator is stored under. */
  function MethodKey(m: Method): string
  {
    match m
    case Euler => "euler"
    case RK4 => "rk4"
    case Verlet => "verlet"
    case Adams => "adams"
  }

  /** `integrators[method]`: a missing key raises KeyError. */
  function MethodFromKey(key: string): (r: Result<Method, Error>)
    ensures r.Err? ==> r.error == KeyError
  {
    if key == "euler" then Ok(Euler)
    else if key == "rk4" then Ok(RK4)
    else if key == "verlet" then Ok(Verlet)
    else if key == "adams" then Ok(Adams)
    else Err(KeyError)
  }

  /** The lookup and the key table are inverse: every integrator is found
      under its key, and a key that is found is that integrator's key. */
  lemma MethodKeyRoundTrip(m: Method, key: string)
    ensures MethodFromKey(MethodKey(m)) == Ok(m)
    ensures MethodFromKey(key).Ok? ==> MethodKey(MethodFromKey(key).value) == key
    ensures MethodFromKey(key).Ok? <==> key in {"euler", "rk4", "verlet", "adams"}
  {
  }

  /** `AdamsBashforthIntegrator` is built with its default order. */
  const AdamsOrder: int := 4

  // ---------------------------------------------------------------------------
  // The derivative handed to the integrator

  /** `lambda t, y: n_body_derivative(t, y, masses)`. It is only ever applied
      to states of 6n entries; on any other length it returns its input, so
      that every length is preserved. */
  function SimulationField(law: Law, masses: seq<real>): (field: (real, Vector) -> Vector)
    ensures forall w: nat :: PreservesLength(field, w)
  {
    (t: real, y: Vector) => if |y| == 6 * |masses| then Derivative(law, y, masses) else y
  }

  /** The acceleration half of the simulation field as a function of the
      positions alone. */
  function SimulationAccel(law: Law, masses: seq<real>): Vector -> Vector
  {
    (p: Vector) => if |p| == 3 * |masses| then Derivative(law, p + Zeros(3 * |masses|), masses)[3 * |masses|..] else p
  }

  /** The n-body field is a positional force: its acceleration half depends
      on the positions only. */
  lemma SimulationIsPositional(law: Law, masses: seq<real>)
    ensures PreservesLength(SimulationField(law, masses), 6 * |masses|)
    ensures PositionalForce(SimulationField(law, masses), SimulationAccel(law, masses), 6 * |masses|)
  {
    var n := |masses|;
    var f, accel := SimulationField(law, masses), SimulationAccel(law, masses);
    assert 6 * n / 2 == 3 * n;
    forall t: real, y: Vector | |y| == 6 * n
      ensures f(t, y)[6 * n / 2..] == accel(y[..6 * n / 2])
    {
      var p := y[..3 * n];
      assert (p + Zeros(3 * n))[..3 * n] == y[..3 * n];
      DerivativeDependsOnPositions(law, y, p + Zeros(3 * n), masses);
    }
  }

  /** Velocity Verlet on the n-body field runs backwards exactly: stepping
      forward by dt from t and then by -dt from t + dt returns the state. */
  lemma SimulationVerletReversible(law: Law, masses: seq<real>, dt: real, t: real, y: Vector)
    requires |y| == 6 * |masses|
    ensures PreservesLength(SimulationField(law, masses), |y|) && |y| % 2 == 0
    ensures VerletStep(SimulationField(law, masses), -dt, t + dt, VerletStep(SimulationField(law, masses), dt, t, y)) == y
  {
    assert |y| == StateWidth(|masses|);
    SimulationIsPositional(law, masses);
    VerletReversible(SimulationField(law, masses), SimulationAccel(law, masses), dt, t, y);
  }

  // ---------------------------------------------------------------------------
  // The rows of a run

  /** The row `integrator.step(t, y)` returns. `derivs` are the derivatives
      an Adams-Bashforth integrator has recorded so far, f(t, y) included;
      the other integrators do not look at them. */
  function NextRow(m: Method, f: (real, Vector) -> Vector, dt: real, derivs: seq<Vector>, t: real, y: Vector): (r: Vector)
    requires PreservesLength(f, |y|) && |y| % 2 == 0
    requires forall i | 0 <= i < |derivs| :: |derivs[i]| == |y|
    ensures |r| == |y|
  {
    match m
    case Euler => EulerStep(f, dt, t, y)
    case RK4 => RK4Step(f, dt, t, y)
    case Verlet => VerletStep(f, dt, t, y)
    case Adams =>
      if |derivs| < AdamsOrder then RK4Step(f, dt, t, y)
      else
        var window := Recent(derivs, AdamsOrder);
        assert forall i | 0 <= i < |window| :: |window[i]| == |y|;
        Add(y, Scale(dt, Combine(Coefficients(AdamsOrder).value, Reverse(window), |y|)))
  }

  /** One call of `integrator.step(t, y)` from the loop's point of view:
      given the derivatives recorded so far, the time and the previous row,
      the next row. */
  type Stepper = (seq<Vector>, real, Vector) -> Vector

  ghost predicate KeepsWidth(step: Stepper, w: nat)
  {
    forall derivs: seq<Vector>, s: real, y: Vector :: |y| == w ==> |step(derivs, s, y)| == w
  }

  /** The chosen integrator's `step` on rows of width w. */
  ghost function StepperOf(m: Method, f: (real, Vector) -> Vector, dt: real, w: nat): (step: Stepper)
    requires PreservesLength(f, w) && w % 2 == 0
    ensures KeepsWidth(step, w)
  {
    (derivs: seq<Vector>, s: real, y: Vector) =>
      if |y| == w && forall i | 0 <= i < |derivs| :: |derivs[i]| == w then NextRow(m, f, dt, derivs, s, y) else y
  }

  /** The derivatives recorded while producing rows 1 .. |rows|: step i
      evaluates f at (t[i], row i - 1). */
  function Recorded(f: (real, Vector) -> Vector, t: seq<real>, rows: seq<Vector>, w: nat): (derivs: seq<Vector>)
    requires |rows| < |t| && PreservesLength(f, w)
    requires forall j | 0 <= j < |rows| :: |rows[j]| == w
    ensures |derivs| == |rows|
    ensures forall j | 0 <= j < |rows| :: |derivs[j]| == w
  {
    var derivs := seq(|rows|, j requires 0 <= j < |rows| => f(t[j + 1], rows[j]));
    assert forall j | 0 <= j < |rows| :: |derivs[j]| == w by {
      forall j | 0 <= j < |rows|
        ensures |derivs[j]| == w
      {
        FieldWidth(f, w, t[j + 1], rows[j]);
      }
    }
    derivs
  }

  lemma FieldWidth(f: (real, Vector) -> Vector, w: nat, s: real, y: Vector)
    requires PreservesLength(f, w) && |y| == w
    ensures |f(s, y)| == w
  {
  }

  /** The first k rows of `results`: row 0 is the initial state, row i is
      the step at t[i] from row i - 1. */
  ghost function Run(step: Stepper, f: (real, Vector) -> Vector, t: seq<real>, y0: Vector, k: nat): (rows: seq<Vector>)
    requires 1 <= k <= |t| && KeepsWidth(step, |y0|) && PreservesLength(f, |y0|)
    ensures |rows| == k && rows[0] == y0
    ensures forall i | 0 <= i < k :: |rows[i]| == |y0|
    decreases k
  {
    if k == 1 then [y0]
    else
      var prev := Run(step, f, t, y0, k - 1);
      var next := step(Recorded(f, t, prev, |y0|), t[k - 1], prev[k - 2]);
      StepWidth(step, |y0|, Recorded(f, t, prev, |y0|), t[k - 1], prev[k - 2]);
      prev + [next]
  }

  lemma StepWidth(step: Stepper, w: nat, derivs: seq<Vector>, s: real, y: Vector)
    requires KeepsWidth(step, w) && |y| == w
    ensures |step(derivs, s, y)| == w
  {
  }

  /** Later rows never change earlier ones. */
  lemma {:induction false} RunPrefix(step: Stepper, f: (real, Vector) -> Vector, t: seq<real>, y0: Vector, j: nat, k: nat)
    requires 1 <= j <= k <= |t| && KeepsWidth(step, |y0|) && PreservesLength(f, |y0|)
    ensures Run(step, f, t, y0, k)[..j] == Run(step, f, t, y0, j)
    decreases k
  {
    if j < k {
      RunPrefix(step, f, t, y0, j, k - 1);
      var rows := Run(step, f, t, y0, k);
      assert rows[..k - 1] == Run(step, f, t, y0, k - 1);
      assert rows[..j] == rows[..k - 1][..j];
    }
  }

  /** Run k + 1 extends run k by the step at t[k]. */
  lemma RunSnoc(step: Stepper, f: (real, Vector) -> Vector, t: seq<real>, y0: Vector, k: nat)
    requires 1 <= k < |t| && KeepsWidth(step, |y0|) && PreservesLength(f, |y0|)
    ensures var prev := Run(step, f, t, y0, k);
      Run(step, f, t, y0, k + 1) == prev + [step(Recorded(f, t, prev, |y0|), t[k], prev[k - 1])]
  {
  }

  /** Recording one more row appends one derivative. */
  lemma RecordedSnoc(f: (real, Vector) -> Vector, t: seq<real>, rows: seq<Vector>, w: nat)
    requires 1 <= |rows| < |t| && PreservesLength(f, w)
    requires forall j | 0 <= j < |rows| :: |rows[j]| == w
    ensures Recorded(f, t, rows, w) == Recorded(f, t, rows[..|rows| - 1], w) + [f(t[|rows|], rows[|rows| - 1])]
  {
  }

  /** Row i of a run of any length is the step from row i - 1 at t[i],
      given the derivatives of rows 0 .. i - 1. */
  lemma RunStep(step: Stepper, f: (real, Vector) -> Vector, t: seq<real>, y0: Vector, k: nat, i: nat)
    requires 1 <= i < k <= |t| && KeepsWidth(step, |y0|) && PreservesLength(f, |y0|)
    ensures var rows := Run(step, f, t, y0, k);
      rows[i] == step(Recorded(f, t, rows[..i], |y0|), t[i], rows[i - 1])
  {
    RunPrefix(step, f, t, y0, i + 1, k);
    RunPrefix(step, f, t, y0, i, k);
    var rows := Run(step, f, t, y0, k);
    assert rows[i] == rows[..i + 1][i] && rows[i - 1] == rows[..i + 1][i - 1];
  }

  /** Two steppers that agree whenever fewer than k derivatives are
      recorded produce the same first k rows. */
  lemma {:induction false} RunsAgree(s1: Stepper, s2: Stepper, f: (real, Vector) -> Vector, t: seq<real>, y0: Vector, k: nat)
    requires 1 <= k <= |t| && KeepsWidth(s1, |y0|) && KeepsWidth(s2, |y0|) && PreservesLength(f, |y0|)
    requires forall derivs: seq<Vector>, s: real, y: Vector | |derivs| < k :: s1(derivs, s, y) == s2(derivs, s, y)
    ensures Run(s1, f, t, y0, k) == Run(s2, f, t, y0, k)
    decreases k
  {
    if k > 1 {
      var prev := Run(s1, f, t, y0, k - 1);
      var derivs := Recorded(f, t, prev, |y0|);
      AgreeAt(s1, s2, k, derivs, t[k - 1], prev[k - 2]);
      RunsAgree(s1, s2, f, t, y0, k - 1);
    }
  }

  lemma AgreeAt(s1: Stepper, s2: Stepper, k: nat, derivs: seq<Vector>, s: real, y: Vector)
    requires forall derivs: seq<Vector>, s: real, y: Vector | |derivs| < k :: s1(derivs, s, y) == s2(derivs, s, y)
    requires |derivs| < k
    ensures s1(derivs, s, y) == s2(derivs, s, y)
  {
  }

  /** On a row of width w with derivatives of width w, the stepper is the
      integrator's step. */
  lemma StepperApplies(m: Method, f: (real, Vector) -> Vector, dt: real, w: nat, derivs: seq<Vector>, s: real, y: Vector)
    requires PreservesLength(f, w) && w % 2 == 0 && |y| == w
    requires forall i | 0 <= i < |derivs| :: |derivs[i]| == w
    ensures StepperOf(m, f, dt, w)(derivs, s, y) == NextRow(m, f, dt, derivs, s, y)
    ensures m == Euler ==> NextRow(m, f, dt, derivs, s, y) == EulerStep(f, dt, s, y)
    ensures m == RK4 ==> NextRow(m, f, dt, derivs, s, y) == RK4Step(f, dt, s, y)
    ensures m == Verlet ==> NextRow(m, f, dt, derivs, s, y) == VerletStep(f, dt, s, y)
    ensures m == Adams && |derivs| < AdamsOrder ==> NextRow(m, f, dt, derivs, s, y) == RK4Step(f, dt, s, y)
  {
  }

  /** While fewer than `order` derivatives are recorded, Adams-Bashforth
      bootstraps with RK4: the first four rows of an Adams run are those of
      an RK4 run. */
  lemma AdamsStartsAsRK4(f: (real, Vector) -> Vector, dt: real, t: seq<real>, y0: Vector, k: nat)
    requires 1 <= k <= |t| && k <= AdamsOrder && PreservesLength(f, |y0|) && |y0| % 2 == 0
    ensures Run(StepperOf(Adams, f, dt, |y0|), f, t, y0, k) == Run(StepperOf(RK4, f, dt, |y0|), f, t, y0, k)
  {
    var w := |y0|;
    var adams, rk4 := StepperOf(Adams, f, dt, w), StepperOf(RK4, f, dt, w);
    forall derivs: seq<Vector>, s: real, y: Vector | |derivs| < k
      ensures adams(derivs, s, y) == rk4(derivs, s, y)
    {
      if |y| == w && forall i | 0 <= i < |derivs| :: |derivs[i]| == w {
        StepperApplies(Adams, f, dt, w, derivs, s, y);
        StepperApplies(RK4, f, dt, w, derivs, s, y);
      }
    }
    RunsAgree(adams, rk4, f, t, y0, k);
  }

  /** For the one-step integrators each row depends on the previous row
      alone: row i is Euler's, RK4's or Verlet's step from row i - 1. */
  lemma OneStepRows(m: Method, f: (real, Vector) -> Vector, dt: real, t: seq<real>, y0: Vector, i: nat)
    requires m != Adams && 1 <= i < |t| && PreservesLength(f, |y0|) && |y0| % 2 == 0
    ensures var rows := Run(StepperOf(m, f, dt, |y0|), f, t, y0, |t|);
      && (m == Euler ==> rows[i] == EulerStep(f, dt, t[i], rows[i - 1]))
      && (m == RK4 ==> rows[i] == RK4Step(f, dt, t[i], rows[i - 1]))
      && (m == Verlet ==> rows[i] == VerletStep(f, dt, t[i], rows[i - 1]))
  {
    var w := |y0|;
    var step := StepperOf(m, f, dt, w);
    var rows := Run(step, f, t, y0, |t|);
    RunStep(step, f, t, y0, |t|, i);
    var derivs := Recorded(f, t, rows[..i], w);
    StepperApplies(m, f, dt, w, derivs, t[i], rows[i - 1]);
  }

  /** Row i of `results`. */
  function Row(R: array2<real>, i: nat): (row: Vector)
    requires i < R.Length0
    reads R
    ensures |row| == R.Length1
  {
    seq(R.Length1, c requires 0 <= c < R.Length1 reads R => R[i, c])
  }

  /** All rows of `results`. */
  function RowsOf(R: array2<real>): (rows: seq<Vector>)
    reads R
    ensures |rows| == R.Length0
  {
    seq(R.Length0, i requires 0 <= i < R.Length0 reads R => Row(R, i))
  }

  /** `results[i] = v`: every other row is left as it was. */
  method SetRow(R: array2<real>, i: nat, v: Vector)
    requires i < R.Length0 && |v| == R.Length1
    modifies R
    ensures Row(R, i) == v
    ensures forall j | 0 <= j < R.Length0 && j != i :: Row(R, j) == old(Row(R, j))
  {
    for c := 0 to R.Length1
      invariant forall q | 0 <= q < c :: R[i, q] == v[q]
      invariant forall j, q | 0 <= j < R.Length0 && 0 <= q < R.Length1 && j != i :: R[j, q] == old(R[j, q])
    {
      R[i, c] := v[c];
    }
  }

  /** `step` is the integrator's step on rows of width w. */
  ghost predicate Implements(step: Stepper, m: Method, f: (real, Vector) -> Vector, dt: real, w: nat)
    requires PreservesLength(f, w) && w % 2 == 0
  {
    forall derivs: seq<Vector>, s: real, y: Vector | |y| == w && (forall i | 0 <= i < |derivs| :: |derivs[i]| == w) ::
      step(derivs, s, y) == NextRow(m, f, dt, derivs, s, y)
  }

  lemma StepperImplements(m: Method, f: (real, Vector) -> Vector, dt: real, w: nat)
    requires PreservesLength(f, w) && w % 2 == 0
    ensures Implements(StepperOf(m, f, dt, w), m, f, dt, w)
  {
    forall derivs: seq<Vector>, s: real, y: Vector | |y| == w && (forall i | 0 <= i < |derivs| :: |derivs[i]| == w)
      ensures StepperOf(m, f, dt, w)(derivs, s, y) == NextRow(m, f, dt, derivs, s, y)
    {
      StepperApplies(m, f, dt, w, derivs, s, y);
    }
  }

  /** One `integrator.step(t[i], results[i-1])` call. Only an Adams
      integrator has state: it records f(s, y), so after the call its
      derivatives are `derivs`. */
  method AdvanceRow(m: Method, f: (real, Vector) -> Vector, dt: real, adams: AdamsBashforth?, ghost step: Stepper,
                    ghost derivs: seq<Vector>, s: real, y: Vector)
    returns (next: Vector)
    requires PreservesLength(f, |y|) && |y| % 2 == 0 && Implements(step, m, f, dt, |y|)
    requires forall i | 0 <= i < |derivs| :: |derivs[i]| == |y|
    requires m == Adams ==>
               && adams != null && adams.Valid()
               && adams.f == f && adams.dt == dt && adams.order == AdamsOrder && adams.width == |y|
               && adams.evaluated + [f(s, y)] == derivs
    modifies adams
    ensures next == step(derivs, s, y)
    ensures m == Adams ==> adams.Valid() && adams.evaluated == derivs
    ensures m != Adams && adams != null ==> unchanged(adams)
  {
    match m {
      case Euler => next := EulerStep(f, dt, s, y);
      case RK4 => next := RK4Step(f, dt, s, y);
      case Verlet => next := VerletStep(f, dt, s, y);
      case Adams =>
        var r := adams.Step(s, y);
        next := r.value;
    }
    assert next == NextRow(m, f, dt, derivs, s, y);
  }

  /** The loop `for i in range(1, len(t))` of `run_simulation`, with row 0
      already written: row i becomes the step at t[i] from row i - 1. */
  method FillRows(m: Method, f: (real, Vector) -> Vector, dt: real, t: seq<real>, y0: Vector,
                  results: array2<real>, adams: AdamsBashforth?, ghost step: Stepper)
    requires 1 <= |t| && PreservesLength(f, |y0|) && |y0| % 2 == 0
    requires KeepsWidth(step, |y0|) && Implements(step, m, f, dt, |y0|)
    requires results.Length0 == |t| && results.Length1 == |y0| && Row(results, 0) == y0
    requires m == Adams ==>
               && adams != null && adams.Valid() && adams.evaluated == []
               && adams.f == f && adams.dt == dt && adams.order == AdamsOrder && adams.width == |y0|
    modifies results, adams
    ensures RowsOf(results) == Run(step, f, t, y0, |t|)
  {
    ghost var rows := Run(step, f, t, y0, 1);
    for i := 1 to |t|
      invariant rows == Run(step, f, t, y0, i)
      invariant forall j | 0 <= j < i :: Row(results, j) == rows[j]
      invariant m == Adams ==> adams != null && adams.Valid()
      invariant m == Adams ==> adams.evaluated == Recorded(f, t, rows[..i - 1], |y0|)
    {
      rows := FillRow(m, f, dt, t, y0, results, adams, step, i, rows);
    }
    assert RowsOf(results) == rows by {
      forall j | 0 <= j < |t|
        ensures RowsOf(results)[j] == rows[j]
      {
      }
    }
  }

  /** One pass of that loop: row i from row i - 1. Returns the run so far. */
  method FillRow(m: Method, f: (real, Vector) -> Vector, dt: real, t: seq<real>, y0: Vector,
                 results: array2<real>, adams: AdamsBashforth?, ghost step: Stepper, i: nat, ghost rows: seq<Vector>)
    returns (ghost rows': seq<Vector>)
    requires 1 <= i < |t| && PreservesLength(f, |y0|) && |y0| % 2 == 0
    requires KeepsWidth(step, |y0|) && Implements(step, m, f, dt, |y0|)
    requires results.Length0 == |t| && results.Length1 == |y0|
    requires rows == Run(step, f, t, y0, i)
    requires forall j | 0 <= j < i :: Row(results, j) == rows[j]
    requires m == Adams ==>
               && adams != null && adams.Valid()
               && adams.f == f && adams.dt == dt && adams.order == AdamsOrder && adams.width == |y0|
               && adams.evaluated == Recorded(f, t, rows[..i - 1], |y0|)
    modifies results, adams
    ensures rows' == Run(step, f, t, y0, i + 1)
    ensures forall j | 0 <= j < i + 1 :: Row(results, j) == rows'[j]
    ensures m == Adams ==> adams.Valid() && adams.evaluated == Recorded(f, t, rows'[..i], |y0|)
  {
    var w := |y0|;
    var y := Row(results, i - 1);
    ghost var derivs := Recorded(f, t, rows, w);
    RecordedSnoc(f, t, rows, w);
    var next := AdvanceRow(m, f, dt, adams, step, derivs, t[i], y);
    RunSnoc(step, f, t, y0, i);
    SetRow(results, i, next);
    rows' := rows + [next];
    assert rows'[..i] == rows;
  }

  /** The body of `run_simulation` after the lookup, for one integrator: a
      zero array of len(t) rows, row 0 the initial state, then row by row.
      An Adams run builds its own integrator, so no history carries over
      from earlier runs. */
  method Integrate(m: Method, f: (real, Vector) -> Vector, dt: real, t: seq<real>, y0: Vector)
    returns (results: array2<real>)
    requires 1 <= |t| && PreservesLength(f, |y0|) && |y0| % 2 == 0
    ensures fresh(results) && results.Length0 == |t| && results.Length1 == |y0|
    ensures RowsOf(results) == Run(StepperOf(m, f, dt, |y0|), f, t, y0, |t|)
  {
    var w := |y0|;
    results := new real[|t|, w]((_, _) => 0.0);
    SetRow(results, 0, y0);
    var adams: AdamsBashforth? := null;
    if m == Adams {
      adams := new AdamsBashforth(f, dt, AdamsOrder, w);
    }
    StepperImplements(m, f, dt, w);
    FillRows(m, f, dt, t, y0, results, adams, StepperOf(m, f, dt, w));
  }

  /** The width of an n-body state: three position and three velocity
      coordinates per body. It is even, so it splits into the two halves
      the Verlet step reads. */
  function StateWidth(n: nat): (w: nat)
    ensures w == 6 * n && w % 2 == 0
  {
    assert (6 * n) / 2 == 3 * n;
    6 * n
  }

  /** `run_simulation`: load the system, look up the integrator, and fill
      the rows. The errors arise in the source's order: an unknown system
      (the name list is never bound), a file too short for its bodies, an
      unknown integrator key, and an empty time grid (`results[0]`). On
      success the masses are the file's first n values and row 0 is the
      file block permuted into [positions, velocities]. */
  method RunSimulation(law: Law, systemName: string, lines: seq<real>, methodKey: string, t: seq<real>, step: real)
    returns (outcome: Result<array2<real>, Error>)
    ensures SystemNames(systemName).None? ==> outcome == Err(UnboundLocalError)
    ensures SystemNames(systemName).Some? ==>
      var n := |SystemNames(systemName).value|;
      var w := StateWidth(n);
      if |lines| < 7 * n then outcome == Err(IndexError)
      else if MethodFromKey(methodKey).Err? then outcome == Err(KeyError)
      else if |t| == 0 then outcome == Err(IndexError)
      else
        && outcome.Ok? && fresh(outcome.value)
        && outcome.value.Length0 == |t| && outcome.value.Length1 == w
        && PreservesLength(SimulationField(law, lines[..n]), w)
        && RowsOf(outcome.value)
           == Run(StepperOf(MethodFromKey(methodKey).value, SimulationField(law, lines[..n]), step, w),
                  SimulationField(law, lines[..n]), t, FileToState(lines[n..7 * n], n), |t|)
  {
    var system := new SystemData(systemName);
    var loaded := system.LoadSystem(lines);
    if loaded.Err? {
      return Err(loaded.error);
    }
    var initial := system.GetInitialState();
    var masses := system.GetMasses();
    ghost var names := SystemNames(systemName).value;
    ghost var n := |names|;
    ghost var bodies := DecodeBodies(names, lines);
    assert system.bodies == bodies;
    LoadedSystem(names, lines);
    assert masses == lines[..n];
    assert initial == StateOf(bodies);
    assert StateOf(bodies) == FileToState(lines[n..7 * n], n);
    assert |initial| == 6 * n;
    var m := MethodFromKey(methodKey);
    if m.Err? {
      return Err(KeyError);
    }
    if |t| == 0 {
      return Err(IndexError);
    }
    var f := SimulationField(law, masses);
    assert |initial| == StateWidth(n);
    var results := Integrate(m.value, f, step, t, initial);
    assert f == SimulationField(law, lines[..n]);
    return Ok(results);
  }

  // ---------------------------------------------------------------------------
  // Animation

  /** Advancing the animation frame by `skip`, back to 0 past the last row:
      the frame either moves by exactly `skip` or restarts, and never lands
      at or beyond the row count unless it restarts. */
  function NextFrame(frame: int, skip: int, count: nat): (next: int)
    ensures next == frame + skip || next == 0
    ensures next < count || next == 0
  {
    if frame + skip < count then frame + skip else 0
  }

  /** A frame in range stays in range; with a positive skip it moves forward
      by exactly `skip` unless that leaves the rows, and then it wraps to 0. */
  lemma NextFrameInRange(frame: int, skip: int, count: nat)
    requires 0 <= frame < count && 0 <= skip
    ensures 0 <= NextFrame(frame, skip, count) < count
    ensures NextFrame(frame, skip, count) == 0 <==> frame + skip >= count || frame + skip == 0
    ensures 0 < skip ==> NextFrame(frame, skip, count) > frame || NextFrame(frame, skip, count) == 0
  {
  }

  /** Starting at frame 0, k advances by `skip` visit frame k * skip as long
      as that is below the row count. */
  lemma {:induction false} FramesVisited(skip: nat, count: nat, k: nat)
    requires k * skip < count
    ensures Frames(skip, count, k) == k * skip
  {
    if k > 0 {
      assert (k - 1) * skip <= k * skip;
      FramesVisited(skip, count, k - 1);
      assert (k - 1) * skip + skip == k * skip;
    }
  }

  /** The frame after k timer ticks from frame 0. */
  function Frames(skip: nat, count: nat, k: nat): int
  {
    if k == 0 then 0 else NextFrame(Frames(skip, count, k - 1), skip, count)
  }

  /** The rows the trail of `create_animation_frame` covers:
      `results[max(0, frame - 50):frame + 1]`, as Python clamps a slice. */
  function TrailRows<T>(results: seq<T>, frame: nat): (trail: seq<T>)
    ensures |trail| <= 51
  {
    var lo := if frame < 50 then 0 else frame - 50;
    var hi := if frame + 1 <= |results| then frame + 1 else |results|;
    if lo <= hi then results[lo..hi] else []
  }

  /** For a frame in range the trail is the (at most 51) rows ending with
      the current one, in order. */
  lemma TrailEndsAtFrame<T>(results: seq<T>, frame: nat)
    requires frame < |results|
    ensures var trail := TrailRows(results, frame);
      && |trail| == (if frame < 50 then frame + 1 else 51)
      && trail[|trail| - 1] == results[frame]
      && forall k | 0 <= k < |trail| :: trail[k] == results[frame + 1 - |trail| + k]
  {
    var lo := if frame < 50 then 0 else frame - 50;
    assert TrailRows(results, frame) == results[lo..frame + 1];
  }

  /** Body i's trail: its position columns 3i, 3i+1, 3i+2 over the trail
      rows. */
  function BodyTrail(results: seq<Vector>, frame: nat, i: nat): (points: seq<Vec3>)
    requires forall r | 0 <= r < |results| :: 3 * i + 3 <= |results[r]|
    ensures |points| == |TrailRows(results, frame)|
  {
    var rows := TrailRows(results, frame);
    assert forall k | 0 <= k < |rows| :: rows[k] in results;
    seq(|rows|, k requires 0 <= k < |rows| => Vec3(rows[k][3 * i], rows[k][3 * i + 1], rows[k][3 * i + 2]))
  }

  /** The last trail point is body i's marker at the current frame. */
  lemma BodyTrailEndsAtMarker(results: seq<Vector>, frame: nat, i: nat)
    requires frame < |results|
    requires forall r | 0 <= r < |results| :: 3 * i + 3 <= |results[r]|
    ensures var points := BodyTrail(results, frame, i);
      points[|points| - 1] == Vec3(results[frame][3 * i], results[frame][3 * i + 1], results[frame][3 * i + 2])
  {
    TrailEndsAtFrame(results, frame);
  }

  /** `update_animation_speed`: slider value to (interval in ms, frame skip).
      Only the four slider positions are mapped, and the interval and the skip
      are always positive. */
  function SpeedMapping(speed: int): (setting: Result<(int, int), Error>)
    ensures setting.Ok? <==> 0 <= speed <= 3
    ensures setting.Err? ==> setting.error == KeyError
    ensures setting.Ok? ==> setting.value.1 >= 1 && setting.value.0 > 0
  {
    if speed == 0 then Ok((200, 1))
    else if speed == 1 then Ok((100, 1))
    else if speed == 2 then Ok((100, 2))
    else if speed == 3 then Ok((100, 4))
    else Err(KeyError)
  }

  /** Frames shown per millisecond. */
  function PlaybackRate(setting: (int, int)): real
    requires setting.0 != 0
  {
    setting.1 as real / setting.0 as real
  }

  /** Each notch of the slider doubles the playback rate (x0.5, x1, x2, x4). */
  lemma SpeedTable(speed: int)
    ensures 0 <= speed < 3 ==>
      PlaybackRate(SpeedMapping(speed + 1).value) == 2.0 * PlaybackRate(SpeedMapping(speed).value)
  {
  }

  /** The animate-button branch of `update_dashboard`: the new
      `animation-interval.disabled` flag and the button's label, which always
      offers the opposite of what the flag now does. */
  function PlayPause(clicks: Option<int>, disabled: bool): (r: (bool, string))
    ensures r.1 == "Pause Animation" <==> !r.0
  {
    if clicks.None? then (true, "Play Animation")
    else (!disabled, if disabled then "Pause Animation" else "Play Animation")
  }

  /** A click flips the flag, the label reads "Pause Animation" exactly when
      the animation was disabled before the click, and two clicks restore the
      flag. */
  lemma PlayPauseToggles(clicks: Option<int>, disabled: bool)
    ensures clicks.Some? ==> PlayPause(clicks, disabled).0 == !disabled
    ensures clicks.Some? ==> (PlayPause(clicks, disabled).1 == "Pause Animation" <==> disabled)
    ensures clicks.Some? ==> PlayPause(clicks, PlayPause(clicks, disabled).0).0 == disabled
  {
  }

  // ---------------------------------------------------------------------------
  // Method buttons

  const ButtonIds: seq<string> := ["euler-button", "rk4-button", "verlet-button", "adams-button"]
  const MethodKeys: seq<string> := ["euler", "rk4", "verlet", "adams"]
  const Plain: string := "method-button"
  const Active: string := "method-button active"

  /** `update_method_selection`: the chosen method key and the class of the
      euler, rk4, verlet and adams buttons, in that order. No trigger selects
      rk4; a button id outside `method_map` raises KeyError. */
  function MethodSelection(trigger: Option<string>): (r: Result<(string, seq<string>), Error>)
    ensures r.Err? <==> trigger.Some? && trigger.value !in ButtonIds
    ensures r.Err? ==> r.error == KeyError
  {
    if trigger.None? then Ok(("rk4", [Plain, Active, Plain, Plain]))
    else if trigger.value !in ButtonIds then Err(KeyError)
    else
      var selected := if trigger.value == "euler-button" then "euler"
        else if trigger.value == "rk4-button" then "rk4"
        else if trigger.value == "verlet-button" then "verlet"
        else "adams";
      Ok((selected, seq(4, k requires 0 <= k < 4 => if MethodKeys[k] == selected then Active else Plain)))
  }

  /** Exactly one button is active, the one of the selected method, and the
      selection is a key of the integrator table. */
  lemma SelectionHasOneActive(trigger: Option<string>)
    ensures trigger.None? ==> MethodSelection(trigger).Ok? && MethodSelection(trigger).value.0 == "rk4"
    ensures MethodSelection(trigger).Ok? ==>
      var (selected, classes) := MethodSelection(trigger).value;
      && |classes| == 4
      && MethodFromKey(selected).Ok?
      && (forall k | 0 <= k < 4 :: classes[k] in {Plain, Active})
      && (forall k | 0 <= k < 4 :: classes[k] == Active <==> MethodKeys[k] == selected)
      && exists k | 0 <= k < 4 :: classes[k] == Active
    ensures forall k | 0 <= k < 4 ::
      MethodSelection(Some(ButtonIds[k])).Ok? && MethodSelection(Some(ButtonIds[k])).value.0 == MethodKeys[k]
  {
    if MethodSelection(trigger).Ok? {
      var (selected, classes) := MethodSelection(trigger).value;
      var k := if selected == "euler" then 0 else if selected == "rk4" then 1 else if selected == "verlet" then 2 else 3;
      assert MethodKeys[k] == selected;
      assert classes[k] == Active;
    }
  }
}
