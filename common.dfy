/** Values shared by every part of the model: vectors, collision boxes,
    physics commands and the oracles that stand for `Math.random` and the
    sine-based coordinate hashes. */
module Geometry {

  datatype Option<T> = None | Some(value: T)

  /** A three-component world vector (positions, sizes, velocities). */
  datatype V3 = V3(x: real, y: real, z: real)

  const Zero := V3(0.0, 0.0, 0.0)

  /** A box collision shape: centre and full extents, as handed to the physics engine. */
  datatype Box = Box(position: V3, args: V3)

  /** A command issued to a rigid body through its position or velocity port. */
  datatype Command = SetVelocity(v: V3) | SetPosition(p: V3)

  function Min(a: real, b: real): (r: real)
    ensures r <= a && r <= b && (r == a || r == b)
  {
    if a <= b then a else b
  }

  function Max(a: real, b: real): (r: real)
    ensures r >= a && r >= b && (r == a || r == b)
  {
    if a >= b then a else b
  }

  function Abs(a: real): (r: real)
    ensures r >= 0.0 && (r == a || r == -a)
  {
    if a < 0.0 then -a else a
  }

  function IntAbs(a: int): (r: nat)
    ensures r == a || r == -a
  {
    if a < 0 then -a else a
  }

  /** `Math.random()`: the i-th draw of the program, always in [0, 1). */
  ghost predicate IsRandomSource(rand: nat -> real)
  {
    forall i :: 0.0 <= rand(i) < 1.0
  }

  /** A deterministic coordinate hash (fractional part of a scaled sine): in [0, 1). */
  ghost predicate IsUnitHash(hash: (int, int) -> real)
  {
    forall x, z :: 0.0 <= hash(x, z) < 1.0
  }

  /** `Math.floor(r * n)` for a draw r in [0, 1) and n > 0 is an index in [0, n). */
  function ScaledFloor(r: real, n: nat): (k: int)
    requires 0.0 <= r < 1.0
    requires n > 0
    ensures 0 <= k < n
  {
    ScaledFloorBounds(r, n);
    (r * n as real).Floor
  }

  lemma ScaledFloorBounds(r: real, n: nat)
    requires 0.0 <= r < 1.0
    requires n > 0
    ensures 0 <= (r * n as real).Floor < n
  {
    var m := n as real;
    assert 0.0 <= r * m;
    assert r * m < m by {
      assert (1.0 - r) * m > 0.0;
    }
  }
}
