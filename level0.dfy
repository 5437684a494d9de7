/** Level 0: the maze is cut into 12 x 12 cell chunks; each chunk derives
    one compound collision body from its wall cells, the visual wall meshes,
    the almond-water bottles on a few floor cells, a dense lattice of
    decorative ceiling fixtures and a sparse lattice of lights. Only the
    chunks around the observer are rendered. The maze reaches this component
    as rows of cells, `grid[z][x]`. */
module Level0 {
  import opened Geometry
  import Chunks
  import MazeGeneration

  /** World units per maze cell (`SCALE`). */
  const Scale := 3.0
  /** Cells per chunk side (`L0_CHUNK`). */
  const ChunkSize: nat := 12
  /** The maze size requested by the level. */
  const MapSize: nat := 71
  /** Fixture spacing, light spacing, and the spacing of lights that shine. */
  const DecorStep: nat := 3
  const LightStep: nat := 12
  const RealLightStep: nat := 36
  /** Items appear on floor cells whose hash is below this. */
  const ItemChance := 0.01

  /** `grid[z]?.[x]`: the cell in column `x` of row `z`, or nothing outside the rows. */
  function At(grid: seq<seq<MazeGeneration.Cell>>, x: int, z: int): Option<MazeGeneration.Cell>
  {
    if 0 <= z < |grid| && 0 <= x < |grid[z]| then Some(grid[z][x]) else None
  }

  function WorldPos(c: (int, int), y: real): V3
  {
    V3(Scale * c.0 as real, y, Scale * c.1 as real)
  }

  /** A wall block is centred half-way up its 5-unit height. */
  function WallPos(c: (int, int)): V3 { WorldPos(c, 2.5) }
  const WallArgs := V3(3.0, 5.0, 3.0)
  function ItemPos(c: (int, int)): V3 { WorldPos(c, 0.25) }
  function FixturePos(c: (int, int)): V3 { WorldPos(c, 4.9) }

  /** Something placed on a cell: the cell it is keyed by and its world position. */
  datatype Placed = Placed(cell: (int, int), p: V3)

  /** A ceiling light; only some of them carry an actual point light. */
  datatype Light = Light(cell: (int, int), p: V3, enabled: bool)

  /** What one chunk renders: its compound body's shapes, the wall meshes,
      the items, the decorative fixtures and the lights. */
  datatype ChunkContent = ChunkContent(
    body: seq<Box>, wallVisuals: seq<Placed>, items: seq<Placed>,
    decor: seq<Placed>, lights: seq<Light>)

  function Cells(vs: seq<Placed>): (cs: seq<(int, int)>)
  {
    seq(|vs|, i requires 0 <= i < |vs| => vs[i].cell)
  }

  function LightCells(ls: seq<Light>): seq<(int, int)>
  {
    seq(|ls|, i requires 0 <= i < |ls| => ls[i].cell)
  }

  predicate InRect(c: (int, int), sx: int, ex: int, sz: int, ez: int)
  {
    sx <= c.0 < ex && sz <= c.1 < ez
  }

  /** The cell range of chunk `(cx, cz)`: `[cx*12, min(cx*12+12, mapW))` by
      `[cz*12, min(cz*12+12, mapH))`. */
  predicate InChunkRange(c: (int, int), cx: nat, cz: nat, mapW: nat, mapH: nat)
  {
    Chunks.InChunk(c.0, cx, ChunkSize, mapW) && Chunks.InChunk(c.1, cz, ChunkSize, mapH)
  }

  /** Order of the cell scan: row `z` by row, and along a row by `x`. */
  predicate RowMajor(a: (int, int), b: (int, int))
  {
    a.1 < b.1 || (a.1 == b.1 && a.0 < b.0)
  }

  predicate ScanOrdered(cs: seq<(int, int)>)
  {
    forall i, j :: 0 <= i < j < |cs| ==> RowMajor(cs[i], cs[j])
  }

  predicate LatticeOrdered(cs: seq<(int, int)>)
  {
    forall i, j :: 0 <= i < j < |cs| ==> Chunks.Before(cs[i], cs[j])
  }

  /** The scan has visited row `z` up to column `x`, and every earlier row. */
  predicate Seen(c: (int, int), sx: int, ex: int, sz: int, z: int, x: int)
  {
    (sx <= c.0 < ex && sz <= c.1 < z) || (c.1 == z && sx <= c.0 < x)
  }

  lemma CellsAppend(vs: seq<Placed>, v: Placed)
    ensures Cells(vs + [v]) == Cells(vs) + [v.cell]
  {
  }

  lemma LightCellsAppend(ls: seq<Light>, l: Light)
    ensures LightCells(ls + [l]) == LightCells(ls) + [l.cell]
  {
  }

  /** The wall part of the scan after visiting the cells `Seen` at `(x, z)`:
      each visited wall cell once, in scan order, with its box. */
  ghost predicate WallsScanned(grid: seq<seq<MazeGeneration.Cell>>, sx: int, ex: int, sz: int, z: int, x: int,
                               shapes: seq<Box>, walls: seq<Placed>)
  {
    && (forall c :: c in Cells(walls) <==> Seen(c, sx, ex, sz, z, x) && At(grid, c.0, c.1) == Some(MazeGeneration.Wall))
    && ScanOrdered(Cells(walls))
    && (forall i :: 0 <= i < |walls| ==> RowMajor(walls[i].cell, (x, z)) && walls[i].p == WallPos(walls[i].cell))
    && |shapes| == |walls|
    && (forall i :: 0 <= i < |shapes| ==> shapes[i] == Box(walls[i].p, WallArgs))
  }

  /** The item part of the scan after visiting the cells `Seen` at `(x, z)`. */
  ghost predicate ItemsScanned(grid: seq<seq<MazeGeneration.Cell>>, hash: (int, int) -> real,
                               sx: int, ex: int, sz: int, z: int, x: int, items: seq<Placed>)
  {
    && (forall c :: c in Cells(items) <==>
          Seen(c, sx, ex, sz, z, x) && At(grid, c.0, c.1) == Some(MazeGeneration.Floor) && hash(c.0, c.1) < ItemChance)
    && ScanOrdered(Cells(items))
    && (forall i :: 0 <= i < |items| ==> RowMajor(items[i].cell, (x, z)) && items[i].p == ItemPos(items[i].cell))
  }

  /** Visiting cell `(x, z)` keeps the wall part of the scan. */
  lemma WallVisited(grid: seq<seq<MazeGeneration.Cell>>, sx: int, ex: int, sz: int, z: int, x: int,
                    shapes: seq<Box>, walls: seq<Placed>, shapes': seq<Box>, walls': seq<Placed>)
    requires sz <= z && sx <= x < ex
    requires WallsScanned(grid, sx, ex, sz, z, x, shapes, walls)
    requires At(grid, x, z) == Some(MazeGeneration.Wall) ==>
      shapes' == shapes + [Box(WallPos((x, z)), WallArgs)] && walls' == walls + [Placed((x, z), WallPos((x, z)))]
    requires At(grid, x, z) != Some(MazeGeneration.Wall) ==> shapes' == shapes && walls' == walls
    ensures WallsScanned(grid, sx, ex, sz, z, x + 1, shapes', walls')
  {
    if At(grid, x, z) == Some(MazeGeneration.Wall) {
      CellsAppend(walls, Placed((x, z), WallPos((x, z))));
    }
  }

  /** Visiting cell `(x, z)` keeps the item part of the scan. */
  lemma ItemVisited(grid: seq<seq<MazeGeneration.Cell>>, hash: (int, int) -> real,
                    sx: int, ex: int, sz: int, z: int, x: int, items: seq<Placed>, items': seq<Placed>)
    requires sz <= z && sx <= x < ex
    requires ItemsScanned(grid, hash, sx, ex, sz, z, x, items)
    requires At(grid, x, z) == Some(MazeGeneration.Floor) && hash(x, z) < ItemChance ==>
      items' == items + [Placed((x, z), ItemPos((x, z)))]
    requires !(At(grid, x, z) == Some(MazeGeneration.Floor) && hash(x, z) < ItemChance) ==> items' == items
    ensures ItemsScanned(grid, hash, sx, ex, sz, z, x + 1, items')
  {
    if At(grid, x, z) == Some(MazeGeneration.Floor) && hash(x, z) < ItemChance {
      CellsAppend(items, Placed((x, z), ItemPos((x, z))));
    }
  }

  /** A finished row is the start of the next one. */
  lemma RowFinished(grid: seq<seq<MazeGeneration.Cell>>, hash: (int, int) -> real,
                    sx: int, ex: int, sz: int, z: int, x: int,
                    shapes: seq<Box>, walls: seq<Placed>, items: seq<Placed>)
    requires sz <= z && x >= ex && (x <= ex || x == sx)
    requires WallsScanned(grid, sx, ex, sz, z, x, shapes, walls)
    requires ItemsScanned(grid, hash, sx, ex, sz, z, x, items)
    ensures WallsScanned(grid, sx, ex, sz, z + 1, sx, shapes, walls)
    ensures ItemsScanned(grid, hash, sx, ex, sz, z + 1, sx, items)
  {
  }

  /** The cell scan of a chunk: one box and one wall mesh per wall cell of the
      rectangle, and an almond-water bottle on each floor cell whose hash is
      below 0.01, each exactly once and in scan order. */
  method ScanCells(grid: seq<seq<MazeGeneration.Cell>>, sx: int, ex: int, sz: int, ez: int,
                   hash: (int, int) -> real)
    returns (shapes: seq<Box>, walls: seq<Placed>, items: seq<Placed>)
    ensures forall c :: c in Cells(walls) <==> InRect(c, sx, ex, sz, ez) && At(grid, c.0, c.1) == Some(MazeGeneration.Wall)
    ensures ScanOrdered(Cells(walls))
    ensures forall i :: 0 <= i < |walls| ==> walls[i].p == WallPos(walls[i].cell)
    ensures |shapes| == |walls|
    ensures forall i :: 0 <= i < |shapes| ==> shapes[i] == Box(walls[i].p, WallArgs)
    ensures forall c :: c in Cells(items) <==>
      InRect(c, sx, ex, sz, ez) && At(grid, c.0, c.1) == Some(MazeGeneration.Floor) && hash(c.0, c.1) < ItemChance
    ensures ScanOrdered(Cells(items))
    ensures forall i :: 0 <= i < |items| ==> items[i].p == ItemPos(items[i].cell)
  {
    shapes, walls, items := [], [], [];
    var z := sz;
    while z < ez
      invariant sz <= z && (z <= ez || z == sz)
      invariant WallsScanned(grid, sx, ex, sz, z, sx, shapes, walls)
      invariant ItemsScanned(grid, hash, sx, ex, sz, z, sx, items)
    {
      shapes, walls, items := ScanRow(grid, sx, ex, sz, z, hash, shapes, walls, items);
      z := z + 1;
    }
    ScanComplete(grid, hash, sx, ex, sz, ez, z, shapes, walls, items);
  }

  /** The inner loop of the scan: row `z`, cells `x` in `[sx, ex)`. */
  method ScanRow(grid: seq<seq<MazeGeneration.Cell>>, sx: int, ex: int, sz: int, z: int, hash: (int, int) -> real,
                 shapes0: seq<Box>, walls0: seq<Placed>, items0: seq<Placed>)
    returns (shapes: seq<Box>, walls: seq<Placed>, items: seq<Placed>)
    requires sz <= z
    requires WallsScanned(grid, sx, ex, sz, z, sx, shapes0, walls0)
    requires ItemsScanned(grid, hash, sx, ex, sz, z, sx, items0)
    ensures WallsScanned(grid, sx, ex, sz, z + 1, sx, shapes, walls)
    ensures ItemsScanned(grid, hash, sx, ex, sz, z + 1, sx, items)
  {
    shapes, walls, items := shapes0, walls0, items0;
    var x := sx;
    while x < ex
      invariant sx <= x && (x <= ex || x == sx)
      invariant WallsScanned(grid, sx, ex, sz, z, x, shapes, walls)
      invariant ItemsScanned(grid, hash, sx, ex, sz, z, x, items)
    {
      ghost var shapes1, walls1, items1 := shapes, walls, items;
      var cell := At(grid, x, z);
      if cell == Some(MazeGeneration.Wall) {
        var pos := WallPos((x, z));
        shapes := shapes + [Box(pos, WallArgs)];
        walls := walls + [Placed((x, z), pos)];
      }
      if cell == Some(MazeGeneration.Floor) && hash(x, z) < ItemChance {
        items := items + [Placed((x, z), ItemPos((x, z)))];
      }
      WallVisited(grid, sx, ex, sz, z, x, shapes1, walls1, shapes, walls);
      ItemVisited(grid, hash, sx, ex, sz, z, x, items1, items);
      x := x + 1;
    }
    RowFinished(grid, hash, sx, ex, sz, z, x, shapes, walls, items);
  }

  /** After the last row, the scan has seen exactly the cells of the rectangle. */
  lemma ScanComplete(grid: seq<seq<MazeGeneration.Cell>>, hash: (int, int) -> real, sx: int, ex: int, sz: int, ez: int, z: int,
                     shapes: seq<Box>, walls: seq<Placed>, items: seq<Placed>)
    requires sz <= z && z >= ez && (z <= ez || z == sz)
    requires WallsScanned(grid, sx, ex, sz, z, sx, shapes, walls)
    requires ItemsScanned(grid, hash, sx, ex, sz, z, sx, items)
    ensures forall c :: c in Cells(walls) <==> InRect(c, sx, ex, sz, ez) && At(grid, c.0, c.1) == Some(MazeGeneration.Wall)
    ensures ScanOrdered(Cells(walls))
    ensures forall i :: 0 <= i < |walls| ==> walls[i].p == WallPos(walls[i].cell)
    ensures |shapes| == |walls|
    ensures forall i :: 0 <= i < |shapes| ==> shapes[i] == Box(walls[i].p, WallArgs)
    ensures forall c :: c in Cells(items) <==>
      InRect(c, sx, ex, sz, ez) && At(grid, c.0, c.1) == Some(MazeGeneration.Floor) && hash(c.0, c.1) < ItemChance
    ensures ScanOrdered(Cells(items))
    ensures forall i :: 0 <= i < |items| ==> items[i].p == ItemPos(items[i].cell)
  {
  }

  /** Two distinct multiples of `step` are at least `step` apart. */
  lemma MultiplesApart(a: int, b: int, step: nat)
    requires step > 0 && a % step == 0 && b % step == 0 && a < b
    ensures a + step <= b
  {
    assert a == (a / step) * step;
    assert b == (b / step) * step;
    if a / step >= b / step {
      if a / step > b / step {
        Chunks.MultipleGap(b / step, a / step, step);
      }
      assert false;
    }
    Chunks.MultipleGap(a / step, b / step, step);
  }

  /** Euclidean division is unique: a quotient and remainder in `[0, b)` are
      the ones `/` and `%` compute. */
  lemma DivUnique(a: int, b: nat, q: int, r: int)
    requires b > 0 && a == q * b + r && 0 <= r < b
    ensures a / b == q && a % b == r
  {
    var q', r' := a / b, a % b;
    assert a == q' * b + r';
    if q' != q {
      if q' < q {
        Chunks.MultipleGap(q', q, b);
      } else {
        Chunks.MultipleGap(q, q', b);
      }
      assert false;
    }
  }

  /** One more step from a multiple of `step` is again a multiple. */
  lemma NextMultiple(x: int, step: nat)
    requires step > 0 && x % step == 0
    ensures (x + step) % step == 0
  {
    var q := x / step;
    assert x == q * step;
    assert x + step == (q + 1) * step;
    DivUnique(x + step, step, q + 1, 0);
  }

  /** `Math.ceil(a / step) * step`: the least multiple of `step` not below `a`. */
  function CeilMultiple(a: nat, step: nat): (m: nat)
    requires step > 0
    ensures m % step == 0
    ensures a <= m < a + step
  {
    var q := (a + step - 1) / step;
    assert a + step - 1 == q * step + (a + step - 1) % step;
    DivUnique(q * step, step, q, 0);
    q * step
  }

  /** `CeilMultiple` is the least: every multiple of `step` at or above `a`
      is at or above it. */
  lemma CeilLeast(a: nat, step: nat, m: int)
    requires step > 0
    requires m % step == 0 && a <= m
    ensures CeilMultiple(a, step) <= m
  {
    var c := CeilMultiple(a, step);
    if m < c {
      MultiplesApart(m, c, step);
      assert false;
    }
  }

  /** The lattice points already listed when the walk stands at `(x, z)`:
      every earlier column, and the current column below `z`. */
  predicate LatticeSeen(c: (int, int), x0: int, ex: int, z0: int, ez: int, step: nat, x: int, z: int)
    requires step > 0
  {
    && ((x0 <= c.0 < x && c.0 < ex) || (c.0 == x && c.1 < z))
    && z0 <= c.1 < ez && c.0 % step == 0 && c.1 % step == 0
  }

  ghost predicate LatticeWalked(pts: seq<(int, int)>, x0: int, ex: int, z0: int, ez: int, step: nat, x: int, z: int)
    requires step > 0
  {
    && (forall c :: c in pts <==> LatticeSeen(c, x0, ex, z0, ez, step, x, z))
    && LatticeOrdered(pts)
    && (forall i :: 0 <= i < |pts| ==> Chunks.Before(pts[i], (x, z)))
  }

  /** Listing `(x, z)` and stepping `z` keeps the walk's invariant. */
  lemma PointListed(pts: seq<(int, int)>, x0: int, ex: int, z0: int, ez: int, step: nat, x: int, z: int)
    requires step > 0 && x % step == 0 && z % step == 0
    requires x0 <= x < ex && z0 <= z < ez
    requires LatticeWalked(pts, x0, ex, z0, ez, step, x, z)
    ensures LatticeWalked(pts + [(x, z)], x0, ex, z0, ez, step, x, z + step)
  {
    forall c: (int, int) | z < c.1 && c.1 % step == 0
      ensures z + step <= c.1
    {
      MultiplesApart(z, c.1, step);
    }
  }

  /** A finished column hands over to the next one. */
  lemma ColumnListed(pts: seq<(int, int)>, x0: int, ex: int, z0: int, ez: int, step: nat, x: int, z: int)
    requires step > 0 && x % step == 0
    requires x0 <= x < ex && z >= ez
    requires LatticeWalked(pts, x0, ex, z0, ez, step, x, z)
    ensures LatticeWalked(pts, x0, ex, z0, ez, step, x + step, z0)
  {
    forall c: (int, int) | x < c.0 && c.0 % step == 0
      ensures x + step <= c.0
    {
      MultiplesApart(x, c.0, step);
    }
  }

  /** The lattice walk of the fixture and light loops: `x` from the first
      multiple of `step` at or above `sx`, by `step`, below `ex`, and inside
      it `z` likewise. Every lattice point of the rectangle, each once, in
      loop order. */
  method Lattice(sx: nat, ex: int, sz: nat, ez: int, step: nat) returns (pts: seq<(int, int)>)
    requires step > 0
    ensures forall c :: c in pts <==> InRect(c, sx, ex, sz, ez) && c.0 % step == 0 && c.1 % step == 0
    ensures LatticeOrdered(pts)
  {
    pts := [];
    var x0, z0 := CeilMultiple(sx, step), CeilMultiple(sz, step);
    var x := x0;
    while x < ex
      invariant x % step == 0 && x >= x0
      invariant LatticeWalked(pts, x0, ex, z0, ez, step, x, z0)
    {
      var z := z0;
      while z < ez
        invariant z % step == 0 && z >= z0
        invariant LatticeWalked(pts, x0, ex, z0, ez, step, x, z)
      {
        PointListed(pts, x0, ex, z0, ez, step, x, z);
        pts := pts + [(x, z)];
        NextMultiple(z, step);
        z := z + step;
      }
      ColumnListed(pts, x0, ex, z0, ez, step, x, z);
      NextMultiple(x, step);
      x := x + step;
    }
    forall c | InRect(c, sx, ex, sz, ez) && c.0 % step == 0 && c.1 % step == 0
      ensures x0 <= c.0 && z0 <= c.1
    {
      CeilLeast(sx, step, c.0);
      CeilLeast(sz, step, c.1);
    }
  }

  /** One chunk of Level 0: the cell scan over its range, the fixture
      lattice every 3 cells, the light lattice every 12 cells (shining only
      on multiples of 36 on both axes), and one compound body made of the
      wall boxes, or the placeholder when the chunk has no wall. */
  method MazeChunk(grid: seq<seq<MazeGeneration.Cell>>, cx: nat, cz: nat, mapW: nat, mapH: nat,
                   hash: (int, int) -> real)
    returns (r: ChunkContent)
    ensures forall c :: c in Cells(r.wallVisuals) <==>
      InChunkRange(c, cx, cz, mapW, mapH) && At(grid, c.0, c.1) == Some(MazeGeneration.Wall)
    ensures ScanOrdered(Cells(r.wallVisuals))
    ensures forall i :: 0 <= i < |r.wallVisuals| ==> r.wallVisuals[i].p == WallPos(r.wallVisuals[i].cell)
    ensures r.wallVisuals != [] ==>
      |r.body| == |r.wallVisuals| && forall i :: 0 <= i < |r.body| ==> r.body[i] == Box(r.wallVisuals[i].p, WallArgs)
    ensures r.wallVisuals == [] ==> r.body == [Chunks.Placeholder]
    ensures forall c :: c in Cells(r.items) <==>
      InChunkRange(c, cx, cz, mapW, mapH) && At(grid, c.0, c.1) == Some(MazeGeneration.Floor) && hash(c.0, c.1) < ItemChance
    ensures ScanOrdered(Cells(r.items))
    ensures forall i :: 0 <= i < |r.items| ==> r.items[i].p == ItemPos(r.items[i].cell)
    ensures forall c :: c in Cells(r.decor) <==>
      InChunkRange(c, cx, cz, mapW, mapH) && c.0 % DecorStep == 0 && c.1 % DecorStep == 0
    ensures LatticeOrdered(Cells(r.decor))
    ensures forall i :: 0 <= i < |r.decor| ==> r.decor[i].p == FixturePos(r.decor[i].cell)
    ensures forall c :: c in LightCells(r.lights) <==>
      InChunkRange(c, cx, cz, mapW, mapH) && c.0 % LightStep == 0 && c.1 % LightStep == 0
    ensures LatticeOrdered(LightCells(r.lights))
    ensures forall i :: 0 <= i < |r.lights| ==>
      && r.lights[i].p == FixturePos(r.lights[i].cell)
      && (r.lights[i].enabled <==> r.lights[i].cell.0 % RealLightStep == 0 && r.lights[i].cell.1 % RealLightStep == 0)
  {
    var startX, startZ := cx * ChunkSize, cz * ChunkSize;
    var endX := if startX + ChunkSize <= mapW then startX + ChunkSize else mapW;
    var endZ := if startZ + ChunkSize <= mapH then startZ + ChunkSize else mapH;
    var shapes, walls, items := ScanCells(grid, startX, endX, startZ, endZ, hash);
    var dp := Lattice(startX, endX, startZ, endZ, DecorStep);
    var decor := seq(|dp|, i requires 0 <= i < |dp| => Placed(dp[i], FixturePos(dp[i])));
    assert Cells(decor) == dp;
    var lp := Lattice(startX, endX, startZ, endZ, LightStep);
    var lights := seq(|lp|, i requires 0 <= i < |lp| =>
      Light(lp[i], FixturePos(lp[i]), lp[i].0 % RealLightStep == 0 && lp[i].1 % RealLightStep == 0));
    assert LightCells(lights) == lp;
    r := ChunkContent(Chunks.BodyShapes(shapes), walls, items, decor, lights);
  }

  /** Every map cell lies in the range of exactly one chunk, `(x / 12, z / 12)`,
      which is among the chunks the level iterates over; no cell outside the
      map lies in any chunk. So no wall, item, fixture or light is produced
      by two chunks. */
  lemma ChunkOwner(mapW: nat, mapH: nat, c: (int, int))
    ensures forall cx: nat, cz: nat :: InChunkRange(c, cx, cz, mapW, mapH) <==>
      0 <= c.0 < mapW && 0 <= c.1 < mapH && cx == c.0 / ChunkSize && cz == c.1 / ChunkSize
    ensures 0 <= c.0 < mapW && 0 <= c.1 < mapH ==>
      c.0 / ChunkSize < Chunks.NumChunks(mapW, ChunkSize) && c.1 / ChunkSize < Chunks.NumChunks(mapH, ChunkSize)
  {
    forall cx: nat, cz: nat | InChunkRange(c, cx, cz, mapW, mapH)
      ensures 0 <= c.0 < mapW && 0 <= c.1 < mapH && cx == c.0 / ChunkSize && cz == c.1 / ChunkSize
    {
      Chunks.ChunkInsideGrid(mapW, ChunkSize, cx, c.0);
      Chunks.ChunkInsideGrid(mapH, ChunkSize, cz, c.1);
      Chunks.ChunksTile(mapW, ChunkSize, c.0);
      Chunks.ChunksTile(mapH, ChunkSize, c.1);
    }
    if 0 <= c.0 < mapW && 0 <= c.1 < mapH {
      Chunks.ChunksTile(mapW, ChunkSize, c.0);
      Chunks.ChunksTile(mapH, ChunkSize, c.1);
    }
  }

  /** The observer's chunk on one axis, `Math.floor(coord / 3 / 12)`: the
      chunk whose 36-unit world span holds the coordinate. */
  function ViewChunk(coord: real): (c: int)
    ensures 36.0 * c as real <= coord < 36.0 * (c as real + 1.0)
  {
    ((coord / Scale) / ChunkSize as real).Floor
  }

  /** An observer standing on the centre of cell `x` is in the chunk that owns `x`. */
  lemma ViewOverOwnChunk(x: int)
    ensures ViewChunk(Scale * x as real) == x / ChunkSize
  {
    var q := x / ChunkSize;
    assert x == 12 * q + x % ChunkSize;
    var c := ViewChunk(Scale * x as real);
    assert 12 * c <= x < 12 * c + 12;
  }

  /** The per-frame view update: the stored observer chunk becomes the one
      under the camera, and a change is reported only when it moved. */
  method TrackView(view: Chunks.ViewTracker, camX: real, camZ: real) returns (changed: bool)
    modifies view
    ensures view.cx == ViewChunk(camX) && view.cz == ViewChunk(camZ)
    ensures changed <==> (ViewChunk(camX), ViewChunk(camZ)) != (old(view.cx), old(view.cz))
  {
    changed := view.Update(ViewChunk(camX), ViewChunk(camZ));
  }

  /** The chunks the level renders around view centre `(vx, vz)`: none
      before the maze exists, otherwise every chunk of the map within
      Chebyshev radius 2, once each, in loop order. */
  method VisibleChunks(grid: seq<seq<MazeGeneration.Cell>>, width: nat, height: nat, vx: int, vz: int)
    returns (chunks: seq<(int, int)>)
    ensures grid == [] ==> chunks == []
    ensures grid != [] ==> forall c :: c in chunks <==>
      0 <= c.0 < Chunks.NumChunks(width, ChunkSize) && 0 <= c.1 < Chunks.NumChunks(height, ChunkSize) &&
      Chunks.Active(c.0, c.1, vx, vz)
    ensures LatticeOrdered(chunks)
  {
    if |grid| == 0 {
      return [];
    }
    chunks := Chunks.ActiveChunks(Chunks.NumChunks(width, ChunkSize), Chunks.NumChunks(height, ChunkSize), vx, vz);
  }
}
