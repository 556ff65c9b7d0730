/** The system loader of src/data/celestial_bodies.py. A data file holds n
    masses followed by a 6n-entry block that is interleaved per body as
    [vx, vy, vz, x, y, z]; the simulation state is laid out as all positions
    followed by all velocities. The file's lines are taken as already parsed
    reals. */
module CelestialBodies {
  import opened Wrappers
  import opened Vectors

  datatype CelestialBody = CelestialBody(name: string, mass: real, position: Vec3, velocity: Vec3)

  /** The body names of each known system, in file order. Any other name
      leaves `names` unassigned in the source, a `UnboundLocalError`. */
  function SystemNames(systemName: string): (names: Option<seq<string>>)
    ensures names.Some? <==> systemName in {"Voyager 1", "Voyager 2", "solar system", "halley"}
    ensures systemName in {"Voyager 1", "Voyager 2"} ==> |names.value| == 5 && names.value[0] == systemName
    ensures systemName == "solar system" ==> |names.value| == 11
    ensures systemName == "halley" ==> |names.value| == 2
    ensures names.Some? ==> "Sun" in names.value
  {
    if systemName == "Voyager 2" then Some(["Voyager 2", "Sun", "Earth", "Saturn", "Jupiter"])
    else if systemName == "solar system" then
      Some(["Sun", "Mercury", "Venus", "Earth", "Mars", "Jupiter", "Saturn", "Uranus", "Neptun", "Moon", "Ceres"])
    else if systemName == "halley" then Some(["Halley comet", "Sun"])
    else if systemName == "Voyager 1" then Some(["Voyager 1", "Sun", "Earth", "Saturn", "Jupiter"])
    else None
  }

  /** Body i of the file: mass lines[i]; block entries T[6i..6i+2] are its
      velocity and T[6i+3..6i+5] its position, where T[k] = lines[n + k]. */
  function DecodeBodies(names: seq<string>, lines: seq<real>): (bodies: seq<CelestialBody>)
    requires 7 * |names| <= |lines|
    ensures |bodies| == |names|
  {
    var n := |names|;
    seq(n, i requires 0 <= i < n =>
      CelestialBody(names[i], lines[i],
                    Vec3(lines[n + 6 * i + 3], lines[n + 6 * i + 4], lines[n + 6 * i + 5]),
                    Vec3(lines[n + 6 * i], lines[n + 6 * i + 1], lines[n + 6 * i + 2])))
  }

  function PositionsOf(bodies: seq<CelestialBody>): seq<Vec3>
  {
    seq(|bodies|, i requires 0 <= i < |bodies| => bodies[i].position)
  }

  function VelocitiesOf(bodies: seq<CelestialBody>): seq<Vec3>
  {
    seq(|bodies|, i requires 0 <= i < |bodies| => bodies[i].velocity)
  }

  /** The state `[positions, velocities]` of a list of bodies. */
  function StateOf(bodies: seq<CelestialBody>): (state: Vector)
    ensures |state| == 6 * |bodies|
  {
    Flatten(PositionsOf(bodies)) + Flatten(VelocitiesOf(bodies))
  }

  lemma StateOfAt(bodies: seq<CelestialBody>, i: nat, c: nat)
    requires i < |bodies| && c < 3
    ensures Slot(StateOf(bodies), 0, i, c) == Coord(bodies[i].position, c)
    ensures Slot(StateOf(bodies), 3 * |bodies|, i, c) == Coord(bodies[i].velocity, c)
  {
    FlattenAt(PositionsOf(bodies), i, c);
    FlattenAt(VelocitiesOf(bodies), i, c);
  }

  /** The interleaved file block as a state: position slot 3i+c reads block
      entry 6i+3+c, velocity slot 3n+3i+c reads block entry 6i+c. */
  function FileToState(block: Vector, n: nat): (state: Vector)
    requires |block| == 6 * n
    ensures |state| == 6 * n
  {
    seq(6 * n, k requires 0 <= k < 6 * n =>
      if k < 3 * n then block[6 * (k / 3) + 3 + k % 3]
      else block[6 * ((k - 3 * n) / 3) + (k - 3 * n) % 3])
  }

  /** The inverse permutation: a state written back in the file layout. */
  function StateToFile(state: Vector, n: nat): (block: Vector)
    requires |state| == 6 * n
    ensures |block| == 6 * n
  {
    seq(6 * n, k requires 0 <= k < 6 * n =>
      if k % 6 < 3 then state[3 * n + 3 * (k / 6) + k % 6]
      else state[3 * (k / 6) + k % 6 - 3])
  }

  lemma FileToStateAt(block: Vector, n: nat, i: nat, c: nat)
    requires |block| == 6 * n && i < n && c < 3
    ensures Slot(FileToState(block, n), 0, i, c) == Cell(block, i, 3 + c)
    ensures Slot(FileToState(block, n), 3 * n, i, c) == Cell(block, i, c)
  {
    DivThree(i, c);
  }

  lemma StateToFileAt(state: Vector, n: nat, i: nat, r: nat)
    requires |state| == 6 * n && i < n && r < 6
    ensures Cell(StateToFile(state, n), i, r)
      == if r < 3 then Slot(state, 3 * n, i, r) else Slot(state, 0, i, r - 3)
  {
    DivSix(i, r);
  }

  /** Every block entry reaches the state: reading a state back in the file
      layout returns the block unchanged. */
  lemma FileStateFile(block: Vector, n: nat)
    requires |block| == 6 * n
    ensures StateToFile(FileToState(block, n), n) == block
  {
    var s := FileToState(block, n);
    forall i, r | 0 <= i < n && 0 <= r < 6
      ensures Cell(StateToFile(s, n), i, r) == Cell(block, i, r)
    {
      StateToFileAt(s, n, i, r);
      if r < 3 {
        FileToStateAt(block, n, i, r);
      } else {
        FileToStateAt(block, n, i, r - 3);
      }
    }
    CellsCover(StateToFile(s, n), block, n);
  }

  /** ... and no two block entries land on the same slot: writing a state out
      and reading it back returns the state unchanged. */
  lemma StateFileState(state: Vector, n: nat)
    requires |state| == 6 * n
    ensures FileToState(StateToFile(state, n), n) == state
  {
    var b := StateToFile(state, n);
    forall i, c | 0 <= i < n && 0 <= c < 3
      ensures Slot(FileToState(b, n), 0, i, c) == Slot(state, 0, i, c)
      ensures Slot(FileToState(b, n), 3 * n, i, c) == Slot(state, 3 * n, i, c)
    {
      FileToStateAt(b, n, i, c);
      StateToFileAt(state, n, i, 3 + c);
      StateToFileAt(state, n, i, c);
    }
    SlotsCover(FileToState(b, n), state, n);
  }

  /** The bodies decoded from a file hold exactly the file block's state. */
  lemma DecodedState(names: seq<string>, lines: seq<real>)
    requires 7 * |names| <= |lines|
    ensures var n := |names|;
      StateOf(DecodeBodies(names, lines)) == FileToState(lines[n..7 * n], n)
  {
    var n := |names|;
    var bodies := DecodeBodies(names, lines);
    var block := lines[n..7 * n];
    forall i, c | 0 <= i < n && 0 <= c < 3
      ensures Slot(StateOf(bodies), 0, i, c) == Slot(FileToState(block, n), 0, i, c)
      ensures Slot(StateOf(bodies), 3 * n, i, c) == Slot(FileToState(block, n), 3 * n, i, c)
    {
      StateOfAt(bodies, i, c);
      FileToStateAt(block, n, i, c);
      DecodedCoords(names, lines, i, c);
    }
    SlotsCover(StateOf(bodies), FileToState(block, n), n);
  }

  /** Body i's decoded coordinates are the block cells 6i+3+c and 6i+c. */
  lemma DecodedCoords(names: seq<string>, lines: seq<real>, i: nat, c: nat)
    requires 7 * |names| <= |lines| && i < |names| && c < 3
    ensures var n := |names|;
      && Coord(DecodeBodies(names, lines)[i].position, c) == Cell(lines[n..7 * n], i, 3 + c)
      && Coord(DecodeBodies(names, lines)[i].velocity, c) == Cell(lines[n..7 * n], i, c)
  {
    var n := |names|;
    assert Cell(lines[n..7 * n], i, 3 + c) == lines[n + 6 * i + 3 + c];
    assert Cell(lines[n..7 * n], i, c) == lines[n + 6 * i + c];
  }

  lemma PrefixSnoc<T>(s: seq<T>, i: nat)
    requires i < |s|
    ensures s[..i + 1] == s[..i] + [s[i]]
  {
  }

  /** One `CelestialBody(...)` of `_load_system`'s last loop, read from the
      masses and the block array T. */
  method BuildBody(names: seq<string>, masses: seq<real>, T: array<real>, i: nat, ghost lines: seq<real>)
    returns (body: CelestialBody)
    requires 7 * |names| <= |lines| && masses == lines[..|names|] && i < |names|
    requires T.Length == 6 * |names|
    requires forall k | 0 <= k < 6 * |names| :: T[k] == lines[|names| + k]
    ensures body == DecodeBodies(names, lines)[i]
  {
    var n := |names|;
    assert T[6 * i] == lines[n + 6 * i] && T[6 * i + 1] == lines[n + 6 * i + 1] && T[6 * i + 2] == lines[n + 6 * i + 2];
    assert T[6 * i + 3] == lines[n + 6 * i + 3] && T[6 * i + 4] == lines[n + 6 * i + 4] && T[6 * i + 5] == lines[n + 6 * i + 5];
    var pos := Vec3(T[6 * i + 3], T[6 * i + 4], T[6 * i + 5]);
    var vel := Vec3(T[6 * i], T[6 * i + 1], T[6 * i + 2]);
    body := CelestialBody(names[i], masses[i], pos, vel);
  }

  /** `a[base:base + 3] = v`: the three entries from `base` on become v's
      coordinates, and nothing else changes. */
  method StoreVec3(a: array<real>, base: nat, v: Vec3)
    requires base + 3 <= a.Length
    modifies a
    ensures forall c | 0 <= c < 3 :: a[base + c] == Coord(v, c)
    ensures forall k | 0 <= k < a.Length && !(base <= k < base + 3) :: a[k] == old(a[k])
  {
    a[base], a[base + 1], a[base + 2] := v.x, v.y, v.z;
  }

  /** `SystemData`: a named system and the bodies loaded for it. */
  class SystemData {
    const systemName: string
    var bodies: seq<CelestialBody>

    /** `__init__` before `_load_system`: no bodies yet. */
    constructor (systemName: string)
      ensures this.systemName == systemName && bodies == []
    {
      this.systemName := systemName;
      bodies := [];
    }

    /** `_load_system` over the file's lines: the masses are the first n
        lines, the block T the next 6n; bodies are appended in name order.
        An unknown system name or a file shorter than 7n lines fails before
        any body is appended. */
    method LoadSystem(lines: seq<real>) returns (outcome: Result<(), Error>)
      modifies this
      ensures SystemNames(systemName).None? ==> outcome == Err(UnboundLocalError) && bodies == old(bodies)
      ensures SystemNames(systemName).Some? ==>
        var names := SystemNames(systemName).value;
        if |lines| < 7 * |names| then outcome == Err(IndexError) && bodies == old(bodies)
        else outcome == Ok(()) && bodies == old(bodies) + DecodeBodies(names, lines)
    {
      var found := SystemNames(systemName);
      if found.None? {
        return Err(UnboundLocalError);
      }
      var names := found.value;
      var n := |names|;
      var masses: seq<real> := [];
      for i := 0 to n
        invariant i <= |lines| && masses == lines[..i]
        invariant bodies == old(bodies)
      {
        if i >= |lines| {
          return Err(IndexError);
        }
        masses := masses + [lines[i]];
      }
      var T := new real[6 * n](_ => 0.0);
      for i := n to 7 * n
        invariant i <= |lines|
        invariant forall k | 0 <= k < i - n :: T[k] == lines[n + k]
        invariant bodies == old(bodies)
      {
        if i >= |lines| {
          return Err(IndexError);
        }
        T[i - n] := lines[i];
      }
      ghost var decoded := DecodeBodies(names, lines);
      var loaded := bodies;
      for i := 0 to n
        invariant bodies == loaded + decoded[..i]
        invariant forall k | 0 <= k < 6 * n :: T[k] == lines[n + k]
      {
        var body := BuildBody(names, masses, T, i, lines);
        bodies := bodies + [body];
        PrefixSnoc(decoded, i);
      }
      assert decoded[..n] == decoded;
      return Ok(());
    }

    /** `get_initial_state`: a fresh zero array of length 6 * len(bodies),
        filled body by body. */
    method GetInitialState() returns (state: Vector)
      ensures state == StateOf(bodies)
    {
      var n := |bodies|;
      var a := new real[6 * n](_ => 0.0);
      for i := 0 to n
        invariant forall j, c | 0 <= j < i && 0 <= c < 3 :: a[3 * j + c] == Coord(bodies[j].position, c)
        invariant forall j, c | 0 <= j < i && 0 <= c < 3 :: a[3 * n + 3 * j + c] == Coord(bodies[j].velocity, c)
      {
        StoreVec3(a, 3 * i, bodies[i].position);
        StoreVec3(a, 3 * n + 3 * i, bodies[i].velocity);
      }
      state := a[..];
      forall i, c | 0 <= i < n && 0 <= c < 3
        ensures Slot(state, 0, i, c) == Slot(StateOf(bodies), 0, i, c)
        ensures Slot(state, 3 * n, i, c) == Slot(StateOf(bodies), 3 * n, i, c)
      {
        StateOfAt(bodies, i, c);
      }
      SlotsCover(state, StateOf(bodies), n);
    }

    /** `get_masses`: the masses in body order. */
    function GetMasses(): (masses: seq<real>)
      reads this
      ensures |masses| == |bodies|
      ensures forall i | 0 <= i < |bodies| :: masses[i] == bodies[i].mass
    {
      var bs := bodies;
      seq(|bs|, i requires 0 <= i < |bs| => bs[i].mass)
    }
  }

  /** Loading a known system into a fresh `SystemData` gives masses equal to
      the first n lines and an initial state equal to the file block permuted
      into `[positions, velocities]`. */
  lemma LoadedSystem(names: seq<string>, lines: seq<real>)
    requires 7 * |names| <= |lines|
    ensures var bodies := DecodeBodies(names, lines);
      var n := |names|;
      && seq(n, i requires 0 <= i < n => bodies[i].mass) == lines[..n]
      && StateOf(bodies) == FileToState(lines[n..7 * n], n)
      && StateToFile(StateOf(bodies), n) == lines[n..7 * n]
  {
    var n := |names|;
    DecodedState(names, lines);
    FileStateFile(lines[n..7 * n], n);
  }
}
