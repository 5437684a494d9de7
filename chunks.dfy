/** The spatial chunk partitioner shared by Level 0 and Level 37: chunk cell
    ranges, the number of chunks per axis, the Chebyshev activation rule,
    the observer's chunk coordinate and the placeholder shape rule for a
    chunk's compound collision body. */
module Chunks {
  import opened Geometry

  /** Chebyshev radius, in chunks, around the observer chunk (`VIEW`, `L0_VIEW`). */
  const ViewRadius: nat := 2

  /** The far-off box registered when a chunk has no collision shape. */
  const Placeholder := Box(V3(0.0, -200.0, 0.0), V3(0.1, 0.1, 0.1))

  /** One past the last cell of chunk `c` on an axis of `dim` cells:
      `Math.min(c * size + size, dim)`. */
  function ChunkEnd(c: nat, size: nat, dim: nat): int
  {
    if c * size + size <= dim then c * size + size else dim
  }

  /** Cell `x` lies in the half-open range `[c * size, ChunkEnd(c, size, dim))`. */
  predicate InChunk(x: int, c: nat, size: nat, dim: nat)
  {
    c * size <= x < ChunkEnd(c, size, dim)
  }

  /** `Math.ceil(dim / size)`: the least chunk count whose chunks reach `dim`. */
  function NumChunks(dim: nat, size: nat): (n: nat)
    requires size > 0
    ensures n * size >= dim
    ensures n > 0 ==> (n - 1) * size < dim
  {
    (dim + size - 1) / size
  }

  /** Strictly smaller multipliers give multiples at least one `size` apart. */
  lemma MultipleGap(a: int, b: int, size: nat)
    requires a < b
    ensures a * size + size <= b * size
  {
    var d := b - a - 1;
    assert d >= 0;
    assert d * size >= 0;
    assert b * size == a * size + d * size + size;
  }

  /** The chunks `0 .. NumChunks - 1` tile an axis exactly: every cell lies in
      chunk `x / size`, and in no other chunk. */
  lemma {:induction false} ChunksTile(dim: nat, size: nat, x: int)
    requires size > 0
    requires 0 <= x < dim
    ensures x / size < NumChunks(dim, size)
    ensures InChunk(x, x / size, size, dim)
    ensures forall c: nat :: InChunk(x, c, size, dim) ==> c == x / size
  {
    var q := x / size;
    assert x == q * size + x % size;
    assert q * size <= x < q * size + size;
    var n := NumChunks(dim, size);
    if q >= n {
      if q > n { MultipleGap(n, q, size); }
      assert false;
    }
    forall c: nat | InChunk(x, c, size, dim)
      ensures c == q
    {
      if c < q {
        MultipleGap(c, q, size);
      } else if c > q {
        MultipleGap(q, c, size);
      }
    }
  }

  /** No cell outside the grid belongs to a chunk. */
  lemma ChunkInsideGrid(dim: nat, size: nat, c: nat, x: int)
    requires size > 0
    requires InChunk(x, c, size, dim)
    ensures 0 <= x < dim
  {
  }

  /** A chunk is active iff both coordinates are within the view radius of the
      observer chunk. */
  predicate Active(cx: int, cz: int, vx: int, vz: int)
  {
    IntAbs(cx - vx) <= ViewRadius && IntAbs(cz - vz) <= ViewRadius
  }

  /** Lexicographic order of the `(cx, cz)` loops that list chunks. */
  predicate Before(a: (int, int), b: (int, int))
  {
    a.0 < b.0 || (a.0 == b.0 && a.1 < b.1)
  }

  /** The render loop over `cx < numCX`, `cz < numCZ` that keeps the active
      chunks: each active chunk exactly once, in loop order. */
  method ActiveChunks(numCX: nat, numCZ: nat, vx: int, vz: int) returns (chunks: seq<(int, int)>)
    ensures forall c :: c in chunks <==> 0 <= c.0 < numCX && 0 <= c.1 < numCZ && Active(c.0, c.1, vx, vz)
    ensures forall i, j :: 0 <= i < j < |chunks| ==> Before(chunks[i], chunks[j])
  {
    chunks := [];
    var cx := 0;
    while cx < numCX
      invariant 0 <= cx <= numCX
      invariant forall c :: c in chunks <==> 0 <= c.0 < cx && 0 <= c.1 < numCZ && Active(c.0, c.1, vx, vz)
      invariant forall i, j :: 0 <= i < j < |chunks| ==> Before(chunks[i], chunks[j])
      invariant forall i :: 0 <= i < |chunks| ==> chunks[i].0 < cx
    {
      var cz := 0;
      while cz < numCZ
        invariant 0 <= cz <= numCZ
        invariant forall c :: c in chunks <==>
          0 <= c.1 < numCZ && Active(c.0, c.1, vx, vz) && ((0 <= c.0 < cx) || (c.0 == cx && c.1 < cz))
        invariant forall i, j :: 0 <= i < j < |chunks| ==> Before(chunks[i], chunks[j])
        invariant forall i :: 0 <= i < |chunks| ==> Before(chunks[i], (cx, cz))
      {
        if IntAbs(cx - vx) <= ViewRadius && IntAbs(cz - vz) <= ViewRadius {
          chunks := chunks + [(cx, cz)];
        }
        cz := cz + 1;
      }
      cx := cx + 1;
    }
  }

  /** The shape list of a chunk's single compound body: its own shapes, or the
      placeholder when it has none, so that the body is never empty. */
  function BodyShapes(shapes: seq<Box>): (r: seq<Box>)
    ensures |r| >= 1
    ensures shapes != [] ==> r == shapes
    ensures shapes == [] ==> r == [Placeholder] && r[0].position.y == -200.0
  {
    if |shapes| > 0 then shapes else [Placeholder]
  }

  /** The observer chunk coordinate kept between ticks (`viewRef`). */
  class ViewTracker {
    var cx: int
    var cz: int

    constructor (cx0: int, cz0: int)
      ensures cx == cx0 && cz == cz0
    {
      cx, cz := cx0, cz0;
    }

    /** Records the newly computed observer chunk; reports a change, and
        writes, only when it differs from the stored one. */
    method Update(ncx: int, ncz: int) returns (changed: bool)
      modifies this
      ensures changed <==> (ncx, ncz) != (old(cx), old(cz))
      ensures cx == ncx && cz == ncz
      ensures !changed ==> unchanged(this)
    {
      changed := false;
      if ncx != cx || ncz != cz {
        cx, cz := ncx, ncz;
        changed := true;
      }
    }
  }
}
