/** Element-wise arithmetic on flat real vectors, as numpy performs it on
    1-D arrays (`a + b`, `c * a`, `np.zeros`), and on the 3-vectors that
    hold one body's position, velocity or acceleration. Reals are exact:
    no rounding is modelled. */
module Vectors {

  type Vector = seq<real>

  /** `np.zeros(n)` */
  function Zeros(n: nat): Vector
  {
    seq(n, _ => 0.0)
  }

  /** `a + b` on two arrays of the same shape */
  function Add(a: Vector, b: Vector): Vector
    requires |a| == |b|
  {
    seq(|a|, i requires 0 <= i < |a| => a[i] + b[i])
  }

  /** `c * a` for a scalar `c` */
  function Scale(c: real, a: Vector): Vector
  {
    seq(|a|, i requires 0 <= i < |a| => c * a[i])
  }

  /** One body's vector quantity, a row of an (n, 3) array. */
  datatype Vec3 = Vec3(x: real, y: real, z: real)

  const Origin: Vec3 := Vec3(0.0, 0.0, 0.0)

  function Plus(a: Vec3, b: Vec3): Vec3
  {
    Vec3(a.x + b.x, a.y + b.y, a.z + b.z)
  }

  function Minus(a: Vec3, b: Vec3): Vec3
  {
    Vec3(a.x - b.x, a.y - b.y, a.z - b.z)
  }

  function Times(c: real, a: Vec3): Vec3
  {
    Vec3(c * a.x, c * a.y, c * a.z)
  }

  function Neg(a: Vec3): Vec3
  {
    Vec3(-a.x, -a.y, -a.z)
  }

  /** |v|^2 */
  function SqNorm(v: Vec3): real
  {
    v.x * v.x + v.y * v.y + v.z * v.z
  }

  /** Component `c` (0 = x, 1 = y, 2 = z). */
  function Coord(v: Vec3, c: nat): real
    requires c < 3
  {
    if c == 0 then v.x else if c == 1 then v.y else v.z
  }

  /** `arr.flatten()` of an (n, 3) array: body i's component c lands at 3i + c. */
  function Flatten(vs: seq<Vec3>): Vector
  {
    seq(3 * |vs|, k requires 0 <= k < 3 * |vs| => Coord(vs[k / 3], k % 3))
  }

  /** `s[:3n].reshape(n, 3)`: entries 3i, 3i+1, 3i+2 become row i. */
  function Rows(s: Vector, n: nat): seq<Vec3>
    requires 3 * n <= |s|
  {
    seq(n, i requires 0 <= i < n => Vec3(s[3 * i], s[3 * i + 1], s[3 * i + 2]))
  }

  lemma {:induction false} RowsFlatten(vs: seq<Vec3>)
    ensures Rows(Flatten(vs), |vs|) == vs
  {
    var n := |vs|;
    forall i | 0 <= i < n
      ensures Rows(Flatten(vs), n)[i] == vs[i]
    {
      assert (3 * i) / 3 == i && (3 * i) % 3 == 0;
      assert (3 * i + 1) / 3 == i && (3 * i + 1) % 3 == 1;
      assert (3 * i + 2) / 3 == i && (3 * i + 2) % 3 == 2;
    }
  }

  lemma FlattenAt(vs: seq<Vec3>, i: nat, c: nat)
    requires i < |vs| && c < 3
    ensures 3 * i + c < |Flatten(vs)| && Flatten(vs)[3 * i + c] == Coord(vs[i], c)
  {
    assert (3 * i + c) / 3 == i && (3 * i + c) % 3 == c;
  }

  /** Component c of the 3-vector stored at `base + 3i`. */
  function Slot(s: Vector, base: nat, i: nat, c: nat): real
    requires c < 3 && base + 3 * i + c < |s|
  {
    s[base + 3 * i + c]
  }

  /** Entry r of the six-entry block of body i (the file layout). */
  function Cell(s: Vector, i: nat, r: nat): real
    requires r < 6 && 6 * i + r < |s|
  {
    s[6 * i + r]
  }

  lemma DivThree(i: nat, c: nat)
    requires c < 3
    ensures (3 * i + c) / 3 == i && (3 * i + c) % 3 == c
  {
  }

  lemma DivSix(i: nat, r: nat)
    requires r < 6
    ensures (6 * i + r) / 6 == i && (6 * i + r) % 6 == r
  {
  }

  /** Two vectors of length 6n that agree on every cell 6i+r are equal. */
  lemma CellsCover(s1: Vector, s2: Vector, n: nat)
    requires |s1| == |s2| == 6 * n
    requires forall i, r | 0 <= i < n && 0 <= r < 6 :: Cell(s1, i, r) == Cell(s2, i, r)
    ensures s1 == s2
  {
    forall k | 0 <= k < 6 * n
      ensures s1[k] == s2[k]
    {
      var i, r := k / 6, k % 6;
      assert Cell(s1, i, r) == Cell(s2, i, r);
    }
  }

  /** Two vectors of length 6n that agree on every position slot 3i+c and
      every velocity slot 3n+3i+c are equal. */
  lemma SlotsCover(s1: Vector, s2: Vector, n: nat)
    requires |s1| == |s2| == 6 * n
    requires forall i, c | 0 <= i < n && 0 <= c < 3 :: Slot(s1, 0, i, c) == Slot(s2, 0, i, c)
    requires forall i, c | 0 <= i < n && 0 <= c < 3 :: Slot(s1, 3 * n, i, c) == Slot(s2, 3 * n, i, c)
    ensures s1 == s2
  {
    forall k | 0 <= k < 6 * n
      ensures s1[k] == s2[k]
    {
      if k < 3 * n {
        var i, c := k / 3, k % 3;
        assert Slot(s1, 0, i, c) == Slot(s2, 0, i, c);
      } else {
        var i, c := (k - 3 * n) / 3, (k - 3 * n) % 3;
        assert Slot(s1, 3 * n, i, c) == Slot(s2, 3 * n, i, c);
      }
    }
  }
}
