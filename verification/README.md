# N-body simulator core, modelled in Dafny

This project models the physics engine of a Python N-body gravity simulator. Arithmetic is exact over `real`. The model covers five parts:

- **`Equations`** (src/physics/equations.py):
  - the pairwise Newtonian acceleration loop `n_body_acceleration`;
  - the state derivative `n_body_derivative`. A state holds 6n reals: all positions, then all velocities.
- **`Integrators`** (src/physics/integrators.py):
  - the Euler, RK4 and velocity-Verlet steps, as functions of an abstract derivative `f(t, y)`;
  - the Adams-Bashforth integrator, as a class whose `history` list `Step` mutates. It bootstraps with RK4, then keeps a sliding window of `order` derivatives and applies fixed coefficients.
- **`CelestialBodies`** (src/data/celestial_bodies.py):
  - `SystemData`: the system-name table, and decoding of a data file's lines into bodies;
  - `get_initial_state` and `get_masses`;
  - the index permutation from the file layout to the state layout. The file is interleaved per body as `[vx, vy, vz, x, y, z]`. The permutation is proved to be a bijection.
- **`NBodiesProblem`** (N_Bodies_Problem.py):
  - the legacy force function `F`, which works on the interleaved file layout;
  - the column-filling drivers `Euler_explicite`, `Runge_Kutta_2` and `Runge_Kutta_4`, which write a 2-D array in place.
- **`Dashboard`** (src/visualization/dashboard.py):
  - the `run_simulation` loop, which fills a `(len(t), 6n)` array row by row;
  - the integrator-key lookup;
  - the callbacks' index rules: frame advance, the 51-row trail window, play/pause, the speed table and the method buttons.

Shared pieces:

- `Vectors` holds numpy's element-wise operations (`a + b`, `c * a`, `np.zeros`, `flatten`, `reshape`).
- `Wrappers` holds `Option`, `Result` and the Python exceptions the core raises: `KeyError`, `IndexError`, `UnboundLocalError`.

The force law is a parameter: `Law(G, inverseCube)`.

- `G` is the gravitational constant, supplied by the caller.
- `inverseCube(s)` is the factor 1/|r|^3 at squared distance `s`. Both engines compute it with a root (`norm(r)**3` and `(...)**(3/2)`). Here it is an arbitrary function, so every result holds for any choice of it.
- Where positivity matters, `Equations.Attractive` requires G > 0 and a positive factor at positive distances.

A run of `run_simulation` is specified by `Dashboard.Run`:

- row 0 is the initial state;
- row i is the chosen integrator's step at `t[i]` from row i - 1.

A step is seen through a `Stepper`, which is given the derivatives an Adams-Bashforth integrator would have recorded so far. The one-step integrators ignore them.

## Model

| member | source | states |
|---|---|---|
| Equations.Pull | src/physics/equations.py:17-19 | the term G * m_j * (p_j - p_i) * inverseCube(|p_j - p_i|^2) that body j adds to acc[i]; it is the zero vector when the two bodies coincide, whatever inverseCube(0) is |
| Equations.Accel | src/physics/equations.py:14-19 | acc[i], the sum of the pull terms over j = 0..n-1 with j != i in loop order; a lone body's is the zero vector |
| Equations.NBodyAcceleration | src/physics/equations.py:4-21 | acc[i] is body i's acceleration `Accel`: the sum over j != i of G * m_j * (p_j - p_i) * inverseCube(|p_j - p_i|^2); one entry per body |
| Equations.AccumulateRow | src/physics/equations.py:15-19 | the inner loop leaves acc[i] equal to body i's acceleration `Accel` and touches no other row |
| Equations.NBodyDerivative | src/physics/equations.py:23-38 | the method's result is the derivative `Derivative` of the state, whatever t is |
| Equations.Derivative | src/physics/equations.py:23-38 | the value `concatenate([velocities.flatten(), accelerations.flatten()])`, the accelerations taken from `state[:3n].reshape(n, 3)`; it has the state's 6n entries |
| Equations.DerivativeReshapes | src/physics/equations.py:31-38 | the derivative splits back into its parts: its first half is `state[3n:]`, and its second half reshaped to (n, 3) is exactly the acceleration array of the positions (flatten then reshape is the identity) |
| Equations.DerivativeLayout | src/physics/equations.py:29-38 | the derivative has 6n entries; entry 3i+c is the velocity state[3n+3i+c]; entry 3n+3i+c is coordinate c of body i's acceleration, computed from the positions state[:3n] |
| Equations.DerivativeDependsOnPositions | src/physics/equations.py:31-35 | two states with the same positions have the same acceleration half; velocities and t do not enter |
| Equations.AccelIgnoresOwnMass | src/physics/equations.py:14-19 | body i's acceleration does not depend on its own mass m_i, since the j == i term is skipped |
| Equations.PullOtherMass | src/physics/equations.py:17-19 | the pull of j on i (j != i) reads m_j only, so changing m_i leaves it unchanged |
| Equations.TranslationInvariant | src/physics/equations.py:17-19 | shifting every position by the same offset leaves each acceleration unchanged |
| Equations.PullTranslated | src/physics/equations.py:17-19 | one pull term is unchanged when both bodies are shifted by the same offset |
| Equations.SqDistSymmetric | src/physics/equations.py:17-18 | the squared distance from i to j equals that from j to i |
| Equations.PairCancels | src/physics/equations.py:17-19 | m_i times the pull of j on i plus m_j times the pull of i on j is zero (Newton's third law) |
| Equations.MomentumConserved | src/physics/equations.py:14-19 | the mass-weighted sum of all accelerations is the zero vector |
| Equations.TwoBodyAttraction | src/physics/equations.py:17-19 | with two separated bodies, body 0 accelerates along p_1 - p_0 by a positive factor G * m_1 * inverseCube(d^2) |
| Equations.CoincidentBodiesAtRest | src/physics/equations.py:14-19 | two bodies at the same place have zero acceleration in the model, where the source yields NaN |
| Integrators.EulerStep | src/physics/integrators.py:13-15 | `EulerIntegrator.step`: y + dt * f(t, y), of the state's length for a length-preserving f |
| Integrators.RK4Step | src/physics/integrators.py:17-23 | `RK4Integrator.step`: y + dt/6 * (k1 + 2 k2 + 2 k3 + k4), with k1 = f(t, y), k2 and k3 at t + dt/2 from y + dt/2 * k1 and y + dt/2 * k2, k4 at t + dt from y + dt * k3; of the state's length |
| Integrators.EulerOnLinear | src/physics/integrators.py:13-15 | on a linear field f(t, y) = lam * y the Euler step is (1 + lam * dt) * y |
| Integrators.RK4OnLinear | src/physics/integrators.py:17-23 | on f(t, y) = lam * y the RK4 step multiplies y by 1 + z + z^2/2 + z^3/6 + z^4/24, with z = lam * dt |
| Integrators.RK4IsSimpson | src/physics/integrators.py:17-23 | when f ignores y, the RK4 step adds Simpson's rule dt/6 * (g(t) + 4 g(t + dt/2) + g(t + dt)) |
| Integrators.VerletStep | src/physics/integrators.py:25-34 | `VerletIntegrator.step` on an even-length state: positions drift with the old acceleration, then velocities kick with the mean of the old and new accelerations; the result has the state's length |
| Integrators.VerletHalves | src/physics/integrators.py:25-34 | the new position half is pos + dt * vel + dt^2/2 * acc, with acc from the second half of f(t, y); the new velocity half is vel + dt/2 * (acc + acc'), where acc' comes from f(t + dt, new positions ++ old velocities) |
| Integrators.UndoKick | src/physics/integrators.py:31-32 | a velocity kick of dt with accelerations (a, b), then one of -dt with (b, a), restores the velocities |
| Integrators.UndoDrift | src/physics/integrators.py:30 | a position drift of dt, then one of -dt from the new positions and kicked velocities, restores the positions |
| Integrators.VerletReversible | src/physics/integrators.py:25-34 | for a force that depends on positions only, a Verlet step by dt followed by one by -dt from t + dt returns the original state exactly |
| Integrators.Coefficients | src/physics/integrators.py:51-55 | a coefficient row exists exactly for orders 2, 3 and 4, and has `order` entries |
| Integrators.CoefficientsExact | src/physics/integrators.py:51-55 | each row integrates polynomials of degree < order exactly (moment m equals 1/(m+1)); in particular it sums to 1 |
| Integrators.Combine | src/physics/integrators.py:57 | `sum(c * f for c, f in zip(coeffs, derivs))`: pairs up to the shorter of the two lists, as `zip` does, and gives a vector of the derivatives' width (zero when either list is empty) |
| Integrators.CombineNewestFirst | src/physics/integrators.py:57 | through `reversed(history)`, the leading coefficient multiplies the newest derivative |
| Integrators.CombineConstant | src/physics/integrators.py:57 | over equal derivatives d, the weighted sum is (sum of the coefficients) * d |
| Integrators.Recent | src/physics/integrators.py:43-49 | the window holds min(len, order) entries (none for order <= 0), and it is a suffix of everything recorded |
| Integrators.RecentSlides | src/physics/integrators.py:43-49 | one step appends, then evicts the oldest entry only when the list is longer than `order` |
| Integrators.RecentWidths | src/physics/integrators.py:43-49 | every derivative kept in the history, oldest or newest first, has the state's width |
| Integrators.AdamsBashforth.constructor | src/physics/integrators.py:37-40 | a new integrator has an empty history |
| Integrators.AdamsBashforth.Step | src/physics/integrators.py:42-57 | f(t, y) is always recorded, and the history stays the last min(k, order) derivatives; while fewer than `order` are recorded the result is the RK4 step; with an order outside {2,3,4} the lookup fails with KeyError; otherwise the result is y + dt * sum of c_k * history reversed |
| Integrators.WarmStepOnConstantHistory | src/physics/integrators.py:51-57 | once warm, over a history of equal derivatives d, the step is the Euler step y + dt * d |
| CelestialBodies.SystemNames | src/data/celestial_bodies.py:25-35 | the `if/elif` name chain: exactly the four known names yield a body list; Voyager 1/2 have 5 bodies with the probe first, the solar system 11, halley 2, and every list holds the Sun |
| CelestialBodies.DecodeBodies | src/data/celestial_bodies.py:37-67 | one body per name, in name order: mass lines[i], position T[6i+3..6i+5] and velocity T[6i..6i+2] with T[k] = lines[n+k] |
| CelestialBodies.SystemData.constructor | src/data/celestial_bodies.py:13-16 | a new system has its name and no bodies yet |
| CelestialBodies.SystemData.LoadSystem | src/data/celestial_bodies.py:19-67 | with the data file present, an unknown name fails with UnboundLocalError and a file of fewer than 7n lines with IndexError, both before any body is added; otherwise bodies are appended in name order: mass lines[i], velocity T[6i..6i+2], position T[6i+3..6i+5], where T[k] = lines[n+k] |
| CelestialBodies.BuildBody | src/data/celestial_bodies.py:50-67 | the body built from T and the masses is the i-th decoded body: name i, mass lines[i], position T[6i+3..6i+5], velocity T[6i..6i+2] |
| CelestialBodies.StateOf | src/data/celestial_bodies.py:69-77 | the 6n-entry state of a body list: every position in body order, then every velocity |
| CelestialBodies.SystemData.GetInitialState | src/data/celestial_bodies.py:69-77 | the filled array is `StateOf(bodies)`: every body's position, then every body's velocity |
| CelestialBodies.StoreVec3 | src/data/celestial_bodies.py:74-76 | `state[b:b+3] = v` writes the three coordinates of v at b and leaves every other entry unchanged |
| CelestialBodies.StateOfAt | src/data/celestial_bodies.py:71-76 | state[3i+c] is body i's position coordinate c, and state[3n+3i+c] its velocity coordinate c |
| CelestialBodies.SystemData.GetMasses | src/data/celestial_bodies.py:79-81 | one mass per body, in body order |
| CelestialBodies.FileToState | src/data/celestial_bodies.py:50-60 | the file block permuted into the state layout; it keeps the block's 6n entries |
| CelestialBodies.StateToFile | src/data/celestial_bodies.py:71-76 | a state permuted back into the file's per-body `[vx, vy, vz, x, y, z]` blocks; it keeps the 6n entries |
| CelestialBodies.FileToStateAt | src/data/celestial_bodies.py:50-60 | the state's position i is the file block's entries 6i+3..6i+5, and its velocity i is entries 6i..6i+2 |
| CelestialBodies.StateToFileAt | src/data/celestial_bodies.py:50-60 | entries 6i..6i+2 of the file block are body i's velocity in the state, and 6i+3..6i+5 its position |
| CelestialBodies.FileStateFile | src/data/celestial_bodies.py:50-60 | file layout to state layout and back is the identity on the 6n-entry block |
| CelestialBodies.StateFileState | src/data/celestial_bodies.py:71-76 | state layout to file layout and back is the identity, so the permutation is a bijection |
| CelestialBodies.DecodedState | src/data/celestial_bodies.py:43-67 | the decoded bodies' state is the file block permuted into [positions, velocities] |
| CelestialBodies.LoadedSystem | src/data/celestial_bodies.py:37-77 | after loading, the masses are the first n lines, the initial state is the permuted block, and permuting that state back gives the block |
| NBodiesProblem.LegacyPull | N_Bodies_Problem.py:76-78 | the summands M[j] * (Z_i - Z_j) / d_ij^3 the inner loop adds to (a, b, c); a coincident pair adds nothing, whatever inverseCube(0) is |
| NBodiesProblem.Accumulate | N_Bodies_Problem.py:71-78 | the (a, b, c) accumulators end as the sum over j != i of M[j] * (Z_i - Z_j) * inverseCube(d_ij^2) on the position entries |
| NBodiesProblem.FillBody | N_Bodies_Problem.py:71-91 | after body i, the first 6i+6 entries of K are the old first 6i followed by body i's block [-G a, -G b, -G c, Z[6i], Z[6i+1], Z[6i+2]]; later entries are unchanged |
| NBodiesProblem.StoreBlock | N_Bodies_Problem.py:86-91 | the six writes K[6i+r] leave the first 6i+6 entries equal to the old first 6i followed by the six values in slot order, and every later entry unchanged |
| NBodiesProblem.F | N_Bodies_Problem.py:67-93 | returns the 6n entries `LegacyDerivative`, body by body |
| NBodiesProblem.LegacyDerivative | N_Bodies_Problem.py:67-93 | the value of `F(Z, M, n, G)`: 6n entries, body i's block being [-G a, -G b, -G c, Z[6i], Z[6i+1], Z[6i+2]] |
| NBodiesProblem.LegacyAt | N_Bodies_Problem.py:86-91 | entry 6i+r of F's result is entry r of body i's block |
| NBodiesProblem.LegacyCopiesVelocity | N_Bodies_Problem.py:86-91 | K[6i+3+c] = Z[6i+c]: the velocity goes into the position-derivative slot |
| NBodiesProblem.LegacySingleBody | N_Bodies_Problem.py:70-86 | with one body the acceleration entries are 0 |
| NBodiesProblem.LegacySqDistMatches | N_Bodies_Problem.py:76-78 | the legacy squared distance on the file layout is the modern squared distance of the decoded positions |
| NBodiesProblem.LegacyPullMatches | N_Bodies_Problem.py:76-83 | -G times one legacy term is the modern pull of j on i |
| NBodiesProblem.LegacyAccumMatches | N_Bodies_Problem.py:74-83 | -G times every partial legacy sum is the modern partial acceleration |
| NBodiesProblem.LegacyAgrees | N_Bodies_Problem.py:67-93 | F on the file layout, permuted to the state layout, equals `n_body_derivative` of the permuted state: both engines compute the same field |
| NBodiesProblem.EulerColumn | N_Bodies_Problem.py:43 | the Euler recurrence y + pas * F(y) for one column, of the column's 6n entries |
| NBodiesProblem.RK2Column | N_Bodies_Problem.py:50-51 | the Heun recurrence with k1 = y + pas * F(y): y + pas/2 * (F(y) + F(k1)), of 6n entries |
| NBodiesProblem.RK4Column | N_Bodies_Problem.py:58-62 | the RK4 recurrence with stages k = pas * F(...) already scaled: y + 1/6 * (k1 + 2 k2 + 2 k3 + k4), of 6n entries |
| NBodiesProblem.EulerColumnIsEulerStep | N_Bodies_Problem.py:41-45 | the legacy Euler column is `EulerIntegrator.step` on F |
| NBodiesProblem.RK4ColumnIsRK4Step | N_Bodies_Problem.py:56-64 | the legacy RK4 column (stages pre-multiplied by pas) is `RK4Integrator.step` on F |
| NBodiesProblem.RK2ColumnPosition | N_Bodies_Problem.py:48-53 | the RK2 (Heun) position update is p + pas * v + pas^2/2 * a, the same position update as velocity Verlet |
| NBodiesProblem.SetColumn | N_Bodies_Problem.py:43 | `T[:, i] = v` sets column i and leaves every other column unchanged |
| NBodiesProblem.EulerExplicite | N_Bodies_Problem.py:41-45 | the same array is returned; column 0 is kept; for every i >= 1, column i is column i-1 + pas * F(column i-1) |
| NBodiesProblem.RungeKutta2 | N_Bodies_Problem.py:48-53 | the same array is returned; column 0 is kept; column i is y + pas/2 * (F(y) + F(y + pas F(y))), where y is column i-1 |
| NBodiesProblem.RungeKutta4 | N_Bodies_Problem.py:56-64 | the same array is returned; column 0 is kept; column i is the RK4 combination with k = pas * F(...) of column i-1 |
| Dashboard.MethodFromKey | src/visualization/dashboard.py:255-262 | a key outside the table fails with KeyError |
| Dashboard.MethodKeyRoundTrip | src/visualization/dashboard.py:255-262 | lookup and key are inverse; a key is found exactly when it is euler, rk4, verlet or adams |
| Dashboard.SimulationField | src/visualization/dashboard.py:263 | the field `lambda t, y: n_body_derivative(t, y, masses)`, which keeps every state length |
| Dashboard.SimulationIsPositional | src/visualization/dashboard.py:262-265 | the field `lambda t, y: n_body_derivative(t, y, masses)` keeps lengths, and its acceleration half depends on the positions only |
| Dashboard.SimulationVerletReversible | src/visualization/dashboard.py:262-265 | the simulation's Verlet steps run backwards exactly |
| Dashboard.NextRow | src/visualization/dashboard.py:271-272 | one `integrator.step` keeps the row width |
| Dashboard.Run | src/visualization/dashboard.py:267-272 | a run of k rows: row 0 is the initial state, and every row has the initial state's width |
| Dashboard.RunPrefix | src/visualization/dashboard.py:271-272 | rows are filled in order: later rows never change earlier ones |
| Dashboard.RunStep | src/visualization/dashboard.py:271-272 | row i is the step at t[i] (not t[i-1]) from row i-1, given the derivatives recorded for rows 0..i-1 |
| Dashboard.RunsAgree | src/visualization/dashboard.py:271-272 | two integrators that agree while fewer than k derivatives are recorded give the same first k rows |
| Dashboard.StepperApplies | src/visualization/dashboard.py:255-265 | the chosen key's step is Euler's, RK4's or Verlet's step; for Adams it is RK4 while fewer than 4 derivatives are recorded |
| Dashboard.AdamsStartsAsRK4 | src/visualization/dashboard.py:262-272 | the first 4 rows of an Adams run equal those of an RK4 run |
| Dashboard.OneStepRows | src/visualization/dashboard.py:271-272 | for euler, rk4 and verlet, row i is that integrator's step at t[i] from row i-1 |
| Dashboard.SetRow | src/visualization/dashboard.py:272 | `results[i] = v` sets row i and leaves every other row unchanged |
| Dashboard.AdvanceRow | src/visualization/dashboard.py:272 | one call returns the stepper's next row; an Adams integrator has then recorded exactly the run's derivatives |
| Dashboard.FillRows | src/visualization/dashboard.py:271-272 | the loop leaves the array equal to the run's rows |
| Dashboard.FillRow | src/visualization/dashboard.py:271-272 | one pass writes row i as the run's row i from row i-1, leaves rows 0..i-1 as they were, and keeps an Adams history equal to the recorded derivatives |
| Dashboard.Integrate | src/visualization/dashboard.py:262-272 | a fresh (len(t), 6n) array whose rows are the run from the initial state, with a newly built integrator |
| Dashboard.RunSimulation | src/visualization/dashboard.py:249-274 | errors in the source's order (unknown system, short file, unknown key, empty time grid); on success the rows are the run of the chosen integrator on the n-body field, from the decoded initial state, with masses the file's first n lines |
| Dashboard.NextFrame | src/visualization/dashboard.py:412 | `frame + frame_skip` if that is below the row count, else 0: the frame moves by exactly `skip` or restarts, and never reaches the row count |
| Dashboard.NextFrameInRange | src/visualization/dashboard.py:412 | a frame in range stays in range; it advances by `skip` unless that leaves the rows, and then it wraps to 0 |
| Dashboard.FramesVisited | src/visualization/dashboard.py:412 | from frame 0, k ticks reach frame k * skip while that is below the row count |
| Dashboard.TrailRows | src/visualization/dashboard.py:522 | the trail slice has at most 51 rows |
| Dashboard.TrailEndsAtFrame | src/visualization/dashboard.py:522 | for a frame in range, the trail is rows max(0, frame-50)..frame in order, and ends at the current row |
| Dashboard.BodyTrail | src/visualization/dashboard.py:558 | body i's trail has one point per trail row |
| Dashboard.BodyTrailEndsAtMarker | src/visualization/dashboard.py:522 | the trail's last point is body i's marker at the current frame |
| Dashboard.SpeedMapping | src/visualization/dashboard.py:284-291 | slider values 0..3 map to (200,1), (100,1), (100,2), (100,4); exactly those four are mapped, anything else fails with KeyError; interval and skip are always positive |
| Dashboard.SpeedTable | src/visualization/dashboard.py:284-291 | each notch of the slider doubles the playback rate skip / interval |
| Dashboard.PlayPause | src/visualization/dashboard.py:399-401 | no click yet gives (disabled, "Play Animation"); otherwise the flag flips; in every case the label offers the opposite of what the new flag does |
| Dashboard.PlayPauseToggles | src/visualization/dashboard.py:399-401 | a click flips `disabled`; the label reads "Pause Animation" exactly when the animation was disabled before; two clicks restore the flag |
| Dashboard.MethodSelection | src/visualization/dashboard.py:304-327 | `update_method_selection`: the selected key and the four button classes; it fails exactly for a button id outside `method_map`, and then with KeyError |
| Dashboard.SelectionHasOneActive | src/visualization/dashboard.py:304-327 | exactly one button class is active, the selected method's, and it is a key of the integrator table; no trigger selects rk4; each button selects its own method |

## Left out

- File reading and text-to-float parsing (`open`, `readlines`, `float`): lines are given as parsed reals. The file is opened before the name is looked up (src/data/celestial_bodies.py:21), so a missing data file raises FileNotFoundError first; that error and a ValueError on a malformed line are not modelled, and the model's error paths assume the file exists. `import_files` of N_Bodies_Problem.py is not part of this model. The legacy drivers receive `T` with column 0 already set.
- Floating-point rounding, accuracy order, energy drift and stability: arithmetic is exact `real`.
- `np.linalg.norm`, `** 3` and `** (3/2)`: the factor 1/|r|^3 is the parameter `inverseCube` of the squared distance.
- Coincident bodies: a coincident pair exerts no force in the model (`Equations.Pull`, `NBodiesProblem.LegacyPull`, `Equations.CoincidentBodiesAtRest`), since its term carries the zero difference vector whatever `inverseCube(0)` is. The source computes 0/0 there and yields NaN for the whole row. No precondition excludes the case, so the multi-step drivers need no "bodies never meet" assumption.
- `np.arange(0, sim_time, step)`: the time grid `t` is a parameter. A zero step (ValueError) and the grid's length are not modelled. An empty grid fails at `results[0]` with IndexError.
- Plotting and animation: matplotlib in N_Bodies_Problem.py, and Plotly figures in `create_figure` and `create_animation_frame` (marker sizes, colours, layout). Only the trail slice and the current-frame marker are modelled.
- Dash wiring: the callback registration, `dash.callback_context`, `dash.no_update`, the layout, the server and the `try/except` error display in `update_dashboard`.
  - A trigger is modelled as the button id already split from `prop_id`.
  - The frame is a natural number.
  - `sim_data` round-tripping through JSON is not modelled.
- `self.system` and `self.current_results`, the attributes `run_simulation` and `update_dashboard` store on the dashboard object, are not modelled.
- `SystemData.__init__` is split into `SystemData.constructor` (no bodies) and `SystemData.LoadSystem` (the `_load_system` call that `__init__` ends with).
- G comes from src/utils/constants.py in the source. It is the `G` field of `Law` here.
- Integrators.AdamsBashforth.Step: the class carries a ghost `width`, and every state it is given, and every derivative `f` returns, must have that width. The source accepts other widths during the RK4 bootstrap (src/physics/integrators.py:44-46, which runs on `y` alone) and fails with a numpy broadcast error only in the warm combination at line 57, once derivatives of different widths sit in the history; the model does not capture those mixed-width calls.
- Integrators.VerletStep: requires an even state length. On an odd length of 3 or more numpy fails to broadcast the two halves; on length 1 the empty position half broadcasts against the one-entry velocity half and the source returns one entry, which the model does not capture.
- Dashboard.SimulationField: the lambda is only ever applied to 6n-entry states. On other lengths the model returns its input rather than raising.
- The legacy drivers' write order (columns 1, 2, ... in turn) is captured only through the loop invariants. The ensures state the final contents.

Where the design description and the code differ, the model follows the code:

- Coincident bodies give NaN in the code, not a dedicated error (the model gives them no force, as above).
- An unknown system raises FileNotFoundError when it has no data file, and UnboundLocalError only when such a file exists; a short file raises IndexError. Neither is a configuration error.
- The dashboard offers euler, rk4, verlet and adams, the last with fixed order 4. RK2 exists only in the legacy script.
- No check for non-finite results exists.
