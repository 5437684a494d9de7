/** Level 37, the chunk deriver: each 10 x 10 chunk of the generated grid
    turns its open cells into floor tiles, room decorations (floating rings,
    stair steps, pillars) and boundary walls on every side that faces solid
    ground or the edge of the grid, and registers one compound body with
    every solid piece, or the placeholder when there is none. */
module Level37Chunks {
  import opened Geometry
  import Chunks
  import Level37Grid

  /** Cells per chunk side (`CHUNK`) and the boundary wall thickness (`WT`). */
  const ChunkSize: nat := 10
  const WT := 0.3
  /** Decoration chances by room type, and for corridor pillars. */
  const RingChance := 0.15
  const StairChance := 0.08
  const PillarChance := 0.25
  const CorridorPillarChance := 0.03

  /** The generated layout as the chunks read it: the grid, the room map,
      the room types and the world offsets. It is computed once and never
      changed afterwards. */
  datatype Layout = Layout(g: seq<seq<int>>, roomMap: seq<seq<int>>, roomTypes: seq<int>, oX: real, oZ: real, off: real)

  /** Entry `(x, z)` of a grid of rows, 0 where there is none. */
  function At(m: seq<seq<int>>, x: int, z: int): int
  {
    if 0 <= x < |m| && 0 <= z < |m[x]| then m[x][z] else 0
  }

  /** The rows of a 60 x 60 array. */
  function Freeze(a: array2<int>): (m: seq<seq<int>>)
    requires Level37Grid.Sized(a)
    reads a
    ensures |m| == Level37Grid.Grid
    ensures forall x :: 0 <= x < Level37Grid.Grid ==> |m[x]| == Level37Grid.Grid
    ensures forall x, z :: 0 <= x < Level37Grid.Grid && 0 <= z < Level37Grid.Grid ==> At(m, x, z) == a[x, z]
  {
    seq(Level37Grid.Grid, x requires 0 <= x < Level37Grid.Grid reads a =>
      seq(Level37Grid.Grid, z requires 0 <= z < Level37Grid.Grid reads a => a[x, z]))
  }

  /** The layout of a generated grid. */
  function LayoutOf(info: Level37Grid.GridInfo): (l: Layout)
    requires Level37Grid.Sized(info.g) && Level37Grid.Sized(info.roomMap)
    reads info.g, info.roomMap
    ensures forall x, z :: Level37Grid.OnGrid((x, z)) ==>
      At(l.g, x, z) == info.g[x, z] && At(l.roomMap, x, z) == info.roomMap[x, z]
    ensures l.roomTypes == info.roomTypes && l.oX == info.oX && l.oZ == info.oZ && l.off == info.off
  {
    Layout(Freeze(info.g), Freeze(info.roomMap), info.roomTypes, info.oX, info.oZ, info.off)
  }

  /** The React key of a visual: the cell it belongs to, and for boundary
      walls the side. */
  datatype Key =
    | FloorTile(x: int, z: int)
    | Boundary(x: int, z: int, side: int)
    | RoomPillar(x: int, z: int)
    | CorridorPillar(x: int, z: int)

  function KeyCell(k: Key): (int, int)
  {
    (k.x, k.z)
  }

  /** A textured box mesh. */
  datatype Visual = Visual(key: Key, box: Box)

  /** A decoration mesh: a floating ring, or one step of a stair. */
  datatype Decoration = Ring(x: int, z: int, p: V3) | Stair(x: int, z: int, step: int, box: Box)

  /** What a cell, a column or a chunk contributes: the collision shapes,
      floor tiles, wall meshes and decorations, each in push order. */
  datatype Pieces = Pieces(shapes: seq<Box>, floor: seq<Visual>, walls: seq<Visual>, decor: seq<Decoration>)

  const NoPieces := Pieces([], [], [], [])

  function Join(a: Pieces, b: Pieces): Pieces
  {
    Pieces(a.shapes + b.shapes, a.floor + b.floor, a.walls + b.walls, a.decor + b.decor)
  }

  /** World coordinates of a cell centre: `x * CS - off + oX`. */
  function WX(l: Layout, x: int): real { x as real * Level37Grid.CS - l.off + l.oX }
  function WZ(l: Layout, z: int): real { z as real * Level37Grid.CS - l.off + l.oZ }

  function FloorVisual(l: Layout, x: int, z: int): Visual
  {
    Visual(FloorTile(x, z), Box(V3(WX(l, x), -1.5, WZ(l, z)),
                               V3(Level37Grid.CS + 0.05, 1.0, Level37Grid.CS + 0.05)))
  }

  /** The four sides, in the order of the `dirs` table: +x, -x, +z, -z. */
  function SideDX(i: int): int { if i == 0 then 1 else if i == 1 then -1 else 0 }
  function SideDZ(i: int): int { if i == 2 then 1 else if i == 3 then -1 else 0 }

  /** Walls across x are thin in x; walls across z are thin in z. */
  function SideArgs(i: int): V3
  {
    if i < 2 then V3(WT, 11.0, Level37Grid.CS + WT) else V3(Level37Grid.CS + WT, 11.0, WT)
  }

  /** Side `i` of cell `(x, z)` faces the outside of the grid or a cell with `g == 0`. */
  predicate Exposed(l: Layout, x: int, z: int, i: int)
  {
    var nx, nz := x + SideDX(i), z + SideDZ(i);
    nx < 0 || nx >= Level37Grid.Grid || nz < 0 || nz >= Level37Grid.Grid || At(l.g, nx, nz) == 0
  }

  /** The wall on side `i`, half a cell out from the centre. */
  function SideWall(l: Layout, x: int, z: int, i: int): Visual
  {
    Visual(Boundary(x, z, i),
           Box(V3(WX(l, x) + SideDX(i) as real * Level37Grid.CS / 2.0, 3.5,
                  WZ(l, z) + SideDZ(i) as real * Level37Grid.CS / 2.0),
               SideArgs(i)))
  }

  /** The walls of the first `n` sides that are exposed, in side order. */
  function SideWalls(l: Layout, x: int, z: int, n: int): seq<Visual>
    decreases n
  {
    if n <= 0 then []
    else SideWalls(l, x, z, n - 1) + (if Exposed(l, x, z, n - 1) then [SideWall(l, x, z, n - 1)] else [])
  }

  function Boxes(vs: seq<Visual>): seq<Box>
  {
    seq(|vs|, i requires 0 <= i < |vs| => vs[i].box)
  }

  function Keys(vs: seq<Visual>): seq<Key>
  {
    seq(|vs|, i requires 0 <= i < |vs| => vs[i].key)
  }

  /** The boxes of the stair steps among the decorations, in order. */
  function StairBoxes(ds: seq<Decoration>): seq<Box>
    decreases |ds|
  {
    if ds == [] then []
    else StairBoxes(ds[..|ds| - 1]) + (if ds[|ds| - 1].Stair? then [ds[|ds| - 1].box] else [])
  }

  /** How many of the visuals carry key `k`. */
  function KeyCount(vs: seq<Visual>, k: Key): nat
    decreases |vs|
  {
    if vs == [] then 0
    else KeyCount(vs[..|vs| - 1], k) + (if vs[|vs| - 1].key == k then 1 else 0)
  }

  /** Stair step `s`: a 1 x 0.5 x 2 box, one unit further along x and half a
      unit higher per step. */
  function StairBox(l: Layout, x: int, z: int, s: int): Box
  {
    Box(V3(WX(l, x) - 1.0 + s as real, -0.5 + s as real * 0.5, WZ(l, z)), V3(1.0, 0.5, 2.0))
  }

  /** The first `n` stair steps. */
  function StairSteps(l: Layout, x: int, z: int, n: int): seq<Decoration>
    decreases n
  {
    if n <= 0 then [] else StairSteps(l, x, z, n - 1) + [Stair(x, z, n - 1, StairBox(l, x, z, n - 1))]
  }

  /** The type of the room owning a cell, or -1 outside rooms. */
  function RoomTypeAt(l: Layout, x: int, z: int): int
  {
    var rId := At(l.roomMap, x, z);
    if 0 <= rId < |l.roomTypes| then l.roomTypes[rId] else -1
  }

  /** The decoration branch of an open cell: rings in float rooms, three
      stair steps with collision in stair rooms, an offset pillar in pillar
      rooms, a central pillar on corridor cells; at most one of them. */
  function RoomDecor(l: Layout, hash: (int, int) -> real, x: int, z: int): Pieces
  {
    var rType := RoomTypeAt(l, x, z);
    var wx, wz := WX(l, x), WZ(l, z);
    if rType == 1 && hash(x, z) < RingChance then
      Pieces([], [], [], [Ring(x, z, V3(wx + (hash(x + 1, z) - 0.5) * 2.0, -0.1, wz + (hash(x, z + 1) - 0.5) * 2.0))])
    else if rType == 2 && hash(x, z) < StairChance then
      var steps := StairSteps(l, x, z, 3);
      Pieces(StairBoxes(steps), [], [], steps)
    else if rType == 3 && hash(x, z) < PillarChance then
      var b := Box(V3(wx + (hash(x + 3, z) - 0.5), 3.5, wz + (hash(x, z + 3) - 0.5)), V3(0.8, 11.0, 0.8));
      Pieces([b], [], [Visual(RoomPillar(x, z), b)], [])
    else if At(l.roomMap, x, z) < 0 && hash(x, z) < CorridorPillarChance then
      var b := Box(V3(wx, 3.5, wz), V3(1.2, 11.0, 1.2));
      Pieces([b], [], [Visual(CorridorPillar(x, z), b)], [])
    else NoPieces
  }

  /** Everything one cell contributes: nothing when it is not open;
      otherwise its floor tile, its decoration and its boundary walls. */
  function CellPieces(l: Layout, hash: (int, int) -> real, x: int, z: int): Pieces
  {
    if At(l.g, x, z) != 1 then NoPieces
    else
      var d := RoomDecor(l, hash, x, z);
      var sides := SideWalls(l, x, z, 4);
      Pieces(d.shapes + Boxes(sides), [FloorVisual(l, x, z)], d.walls + sides, d.decor)
  }

  /** The contribution of every cell of a layout. */
  function Cells(l: Layout, hash: (int, int) -> real): (int, int) -> Pieces
  {
    (x: int, z: int) => CellPieces(l, hash, x, z)
  }

  /** Cells `z` in `[sz, ez)` of column `x`, joined in the inner loop's order. */
  function Column(cell: (int, int) -> Pieces, x: int, sz: int, ez: int): Pieces
    decreases ez - sz
  {
    if ez <= sz then NoPieces else Join(Column(cell, x, sz, ez - 1), cell(x, ez - 1))
  }

  /** Columns `x` in `[sx, ex)`, each over `[sz, ez)`, joined in the outer loop's order. */
  function Block(cell: (int, int) -> Pieces, sx: int, ex: int, sz: int, ez: int): Pieces
    decreases ex - sx
  {
    if ex <= sx then NoPieces else Join(Block(cell, sx, ex - 1, sz, ez), Column(cell, ex - 1, sz, ez))
  }

  /** Chunk `(cx, cz)`: cells `[cx*10, min(cx*10+10, 60))` by `[cz*10, min(cz*10+10, 60))`. */
  function ChunkOf(l: Layout, hash: (int, int) -> real, cx: nat, cz: nat): Pieces
  {
    Block(Cells(l, hash), cx * ChunkSize, Chunks.ChunkEnd(cx, ChunkSize, Level37Grid.Grid),
          cz * ChunkSize, Chunks.ChunkEnd(cz, ChunkSize, Level37Grid.Grid))
  }

  /** Cell `c` lies in the rectangle `[sx, ex) x [sz, ez)`. */
  predicate InRect(c: (int, int), sx: int, ex: int, sz: int, ez: int)
  {
    sx <= c.0 < ex && sz <= c.1 < ez
  }

  /** Cell `c` lies in chunk `(cx, cz)` (and so on the grid). */
  predicate InChunkCells(cx: nat, cz: nat, c: (int, int))
  {
    Chunks.InChunk(c.0, cx, ChunkSize, Level37Grid.Grid) && Chunks.InChunk(c.1, cz, ChunkSize, Level37Grid.Grid)
  }

  // ---------------------------------------------------------------------
  // The loops.

  /** The loop body for one cell. */
  method EmitCell(l: Layout, hash: (int, int) -> real, x: int, z: int) returns (p: Pieces)
    ensures p == CellPieces(l, hash, x, z)
  {
    if At(l.g, x, z) != 1 {
      return NoPieces;
    }
    var wx, wz := WX(l, x), WZ(l, z);
    var floor := [Visual(FloorTile(x, z), Box(V3(wx, -1.5, wz), V3(Level37Grid.CS + 0.05, 1.0, Level37Grid.CS + 0.05)))];
    var shapes, walls, decor := EmitDecor(l, hash, x, z);
    var sides, sideBoxes := EmitSides(l, x, z);
    p := Pieces(shapes + sideBoxes, floor, walls + sides, decor);
  }

  /** The decoration branch of the loop body. */
  method EmitDecor(l: Layout, hash: (int, int) -> real, x: int, z: int)
    returns (shapes: seq<Box>, walls: seq<Visual>, decor: seq<Decoration>)
    ensures Pieces(shapes, [], walls, decor) == RoomDecor(l, hash, x, z)
  {
    var wx, wz := WX(l, x), WZ(l, z);
    var rId := At(l.roomMap, x, z);
    var rType := if rId >= 0 then (if rId < |l.roomTypes| then l.roomTypes[rId] else -1) else -1;
    assert rType == RoomTypeAt(l, x, z);
    shapes, walls, decor := [], [], [];
    if rType == 1 && hash(x, z) < RingChance {
      decor := decor + [Ring(x, z, V3(wx + (hash(x + 1, z) - 0.5) * 2.0, -0.1, wz + (hash(x, z + 1) - 0.5) * 2.0))];
    } else if rType == 2 && hash(x, z) < StairChance {
      shapes, decor := EmitStairs(l, x, z);
    } else if rType == 3 && hash(x, z) < PillarChance {
      var b := Box(V3(wx + (hash(x + 3, z) - 0.5), 3.5, wz + (hash(x, z + 3) - 0.5)), V3(0.8, 11.0, 0.8));
      shapes := shapes + [b];
      walls := walls + [Visual(RoomPillar(x, z), b)];
    } else if rId < 0 && hash(x, z) < CorridorPillarChance {
      var b := Box(V3(wx, 3.5, wz), V3(1.2, 11.0, 1.2));
      shapes := shapes + [b];
      walls := walls + [Visual(CorridorPillar(x, z), b)];
    }
  }

  /** The stair loop of a stair room cell: three steps, each a mesh and a collision shape. */
  method EmitStairs(l: Layout, x: int, z: int) returns (shapes: seq<Box>, decor: seq<Decoration>)
    ensures decor == StairSteps(l, x, z, 3) && shapes == StairBoxes(decor)
  {
    var wx, wz := WX(l, x), WZ(l, z);
    shapes, decor := [], [];
    var s := 0;
    while s < 3
      invariant 0 <= s <= 3
      invariant decor == StairSteps(l, x, z, s) && shapes == StairBoxes(decor)
    {
      var sp := V3(wx - 1.0 + s as real * 1.0, -0.5 + s as real * 0.5, wz);
      var b := Box(sp, V3(1.0, 0.5, 2.0));
      assert b == StairBox(l, x, z, s);
      StairBoxesAppend(decor, Stair(x, z, s, b));
      shapes := shapes + [b];
      decor := decor + [Stair(x, z, s, b)];
      s := s + 1;
    }
  }

  /** The boundary-wall loop of the loop body: the walls it pushes and their boxes. */
  method EmitSides(l: Layout, x: int, z: int) returns (sides: seq<Visual>, boxes: seq<Box>)
    ensures sides == SideWalls(l, x, z, 4) && boxes == Boxes(sides)
  {
    var wx, wz := WX(l, x), WZ(l, z);
    sides, boxes := [], [];
    var i := 0;
    while i < 4
      invariant 0 <= i <= 4
      invariant sides == SideWalls(l, x, z, i) && boxes == Boxes(sides)
    {
      var nx, nz := x + SideDX(i), z + SideDZ(i);
      SideStep(l, x, z, i);
      if nx < 0 || nx >= Level37Grid.Grid || nz < 0 || nz >= Level37Grid.Grid || At(l.g, nx, nz) == 0 {
        var wp := V3(wx + SideDX(i) as real * Level37Grid.CS / 2.0, 3.5, wz + SideDZ(i) as real * Level37Grid.CS / 2.0);
        var v := Visual(Boundary(x, z, i), Box(wp, SideArgs(i)));
        assert v == SideWall(l, x, z, i);
        boxes := boxes + [v.box];
        sides := sides + [v];
      }
      i := i + 1;
    }
  }

  /** One more side: its wall is added exactly when it is exposed. */
  lemma SideStep(l: Layout, x: int, z: int, i: int)
    requires 0 <= i
    ensures Exposed(l, x, z, i) ==>
      SideWalls(l, x, z, i + 1) == SideWalls(l, x, z, i) + [SideWall(l, x, z, i)] &&
      Boxes(SideWalls(l, x, z, i + 1)) == Boxes(SideWalls(l, x, z, i)) + [SideWall(l, x, z, i).box]
    ensures !Exposed(l, x, z, i) ==> SideWalls(l, x, z, i + 1) == SideWalls(l, x, z, i)
  {
    if Exposed(l, x, z, i) {
      BoxesAppend(SideWalls(l, x, z, i), SideWall(l, x, z, i));
    }
  }

  /** The inner loop: cells `z` in `[sz, ez)` of column `x`. */
  method EmitColumn(l: Layout, hash: (int, int) -> real, x: int, sz: int, ez: int) returns (col: Pieces)
    ensures col == Column(Cells(l, hash), x, sz, ez)
  {
    col := NoPieces;
    var z := sz;
    while z < ez
      invariant sz <= z && (z <= ez || z == sz)
      invariant col == Column(Cells(l, hash), x, sz, z)
    {
      var cell := EmitCell(l, hash, x, z);
      ColumnStep(Cells(l, hash), x, sz, z + 1);
      col := Join(col, cell);
      z := z + 1;
    }
  }

  /** One chunk of Level 37: the cell loops over `[cx*10, min(cx*10+10, 60))`
      by `[cz*10, min(cz*10+10, 60))`, x outer and z inner, and the compound
      body made of the collected shapes or the placeholder. */
  method MapChunk(l: Layout, hash: (int, int) -> real, cx: nat, cz: nat) returns (body: seq<Box>, p: Pieces)
    ensures p == ChunkOf(l, hash, cx, cz)
    ensures body == Chunks.BodyShapes(p.shapes)
  {
    var sx, sz := cx * ChunkSize, cz * ChunkSize;
    var ex := if sx + ChunkSize <= Level37Grid.Grid then sx + ChunkSize else Level37Grid.Grid;
    var ez := if sz + ChunkSize <= Level37Grid.Grid then sz + ChunkSize else Level37Grid.Grid;
    assert ex == Chunks.ChunkEnd(cx, ChunkSize, Level37Grid.Grid) && ez == Chunks.ChunkEnd(cz, ChunkSize, Level37Grid.Grid);
    p := EmitBlock(l, hash, sx, ex, sz, ez);
    body := Chunks.BodyShapes(p.shapes);
  }

  /** The outer loop: columns `x` in `[sx, ex)`, each over `[sz, ez)`. */
  method EmitBlock(l: Layout, hash: (int, int) -> real, sx: int, ex: int, sz: int, ez: int) returns (p: Pieces)
    ensures p == Block(Cells(l, hash), sx, ex, sz, ez)
  {
    p := NoPieces;
    var x := sx;
    while x < ex
      invariant sx <= x && (x <= ex || x == sx)
      invariant p == Block(Cells(l, hash), sx, x, sz, ez)
    {
      var col := EmitColumn(l, hash, x, sz, ez);
      BlockStep(Cells(l, hash), sx, x + 1, sz, ez);
      p := Join(p, col);
      x := x + 1;
    }
  }

  lemma BlockStep(cell: (int, int) -> Pieces, sx: int, ex: int, sz: int, ez: int)
    requires sx < ex
    ensures Block(cell, sx, ex, sz, ez) == Join(Block(cell, sx, ex - 1, sz, ez), Column(cell, ex - 1, sz, ez))
  {
  }

  lemma ColumnStep(cell: (int, int) -> Pieces, x: int, sz: int, ez: int)
    requires sz < ez
    ensures Column(cell, x, sz, ez) == Join(Column(cell, x, sz, ez - 1), cell(x, ez - 1))
  {
  }

  // ---------------------------------------------------------------------
  // Sequence facts.

  lemma StairBoxesAppend(ds: seq<Decoration>, d: Decoration)
    ensures StairBoxes(ds + [d]) == StairBoxes(ds) + (if d.Stair? then [d.box] else [])
  {
    assert (ds + [d])[..|ds|] == ds;
  }

  lemma {:induction false} StairBoxesConcat(a: seq<Decoration>, b: seq<Decoration>)
    ensures StairBoxes(a + b) == StairBoxes(a) + StairBoxes(b)
    decreases |b|
  {
    if b == [] {
      assert a + b == a;
    } else {
      var n := |b| - 1;
      var last := if b[n].Stair? then [b[n].box] else [];
      assert a + b == (a + b[..n]) + [b[n]];
      assert b == b[..n] + [b[n]];
      StairBoxesAppend(a + b[..n], b[n]);
      StairBoxesAppend(b[..n], b[n]);
      StairBoxesConcat(a, b[..n]);
      assert (StairBoxes(a) + StairBoxes(b[..n])) + last == StairBoxes(a) + (StairBoxes(b[..n]) + last);
    }
  }

  lemma BoxesAppend(vs: seq<Visual>, v: Visual)
    ensures Boxes(vs + [v]) == Boxes(vs) + [v.box]
  {
  }

  lemma BoxesConcat(a: seq<Visual>, b: seq<Visual>)
    ensures Boxes(a + b) == Boxes(a) + Boxes(b)
  {
  }

  lemma KeysConcat(a: seq<Visual>, b: seq<Visual>)
    ensures Keys(a + b) == Keys(a) + Keys(b)
  {
  }

  lemma KeyCountAppend(vs: seq<Visual>, v: Visual, k: Key)
    ensures KeyCount(vs + [v], k) == KeyCount(vs, k) + (if v.key == k then 1 else 0)
  {
    assert (vs + [v])[..|vs|] == vs;
  }

  lemma {:induction false} KeyCountConcat(a: seq<Visual>, b: seq<Visual>, k: Key)
    ensures KeyCount(a + b, k) == KeyCount(a, k) + KeyCount(b, k)
    decreases |b|
  {
    if b == [] {
      assert a + b == a;
    } else {
      var n := |b| - 1;
      assert a + b == (a + b[..n]) + [b[n]];
      assert b == b[..n] + [b[n]];
      KeyCountAppend(a + b[..n], b[n], k);
      KeyCountAppend(b[..n], b[n], k);
      KeyCountConcat(a, b[..n], k);
    }
  }

  /** No visual keyed `k`, no count. */
  lemma {:induction false} KeyCountAbsent(vs: seq<Visual>, k: Key)
    requires forall v :: v in vs ==> v.key != k
    ensures KeyCount(vs, k) == 0
    decreases |vs|
  {
    if vs != [] {
      var n := |vs| - 1;
      forall v | v in vs[..n]
        ensures v.key != k
      {
        assert v in vs;
      }
      KeyCountAbsent(vs[..n], k);
      assert vs[n] in vs;
    }
  }

  /** `KeyCount` is the multiplicity of `k` among the visuals' keys. */
  lemma {:induction false} KeyCountMultiplicity(vs: seq<Visual>, k: Key)
    ensures KeyCount(vs, k) == multiset(Keys(vs))[k]
    decreases |vs|
  {
    if vs != [] {
      var n := |vs| - 1;
      KeyCountMultiplicity(vs[..n], k);
      assert vs == vs[..n] + [vs[n]];
      KeysConcat(vs[..n], [vs[n]]);
      assert Keys([vs[n]]) == [vs[n].key];
    }
  }

  // ---------------------------------------------------------------------
  // What a single cell contributes.

  /** Every wall of the first `n` sides belongs to this cell, names an
      exposed side below `n`, and sits on that side. */
  lemma {:induction false} SideWallsShape(l: Layout, x: int, z: int, n: int)
    ensures forall v :: v in SideWalls(l, x, z, n) ==>
      v.key.Boundary? && 0 <= v.key.side < n && KeyCell(v.key) == (x, z) &&
      Exposed(l, x, z, v.key.side) && v == SideWall(l, x, z, v.key.side)
    decreases n
  {
    if n > 0 {
      SideWallsShape(l, x, z, n - 1);
    }
  }

  /** Side `i` has a wall in the first `n` sides exactly once when it is
      exposed, and otherwise none. */
  lemma {:induction false} SideWallCount(l: Layout, x: int, z: int, n: int, i: int)
    ensures KeyCount(SideWalls(l, x, z, n), Boundary(x, z, i)) ==
      if 0 <= i < n && Exposed(l, x, z, i) then 1 else 0
    decreases n
  {
    if n > 0 {
      SideWallCount(l, x, z, n - 1, i);
      var head := SideWalls(l, x, z, n - 1);
      if Exposed(l, x, z, n - 1) {
        KeyCountAppend(head, SideWall(l, x, z, n - 1), Boundary(x, z, i));
      } else {
        assert SideWalls(l, x, z, n) == head + [] == head;
      }
    }
  }

  lemma {:induction false} StairStepsShape(l: Layout, x: int, z: int, n: int)
    ensures forall d :: d in StairSteps(l, x, z, n) ==>
      d.Stair? && (d.x, d.z) == (x, z) && 0 <= d.step < n && d.box == StairBox(l, x, z, d.step)
    ensures |StairSteps(l, x, z, n)| == if n <= 0 then 0 else n
    decreases n
  {
    if n > 0 {
      StairStepsShape(l, x, z, n - 1);
    }
  }

  /** A closed cell contributes nothing; an open cell exactly its own floor tile. */
  lemma CellFloor(l: Layout, hash: (int, int) -> real, x: int, z: int)
    ensures At(l.g, x, z) != 1 ==> CellPieces(l, hash, x, z) == NoPieces
    ensures CellPieces(l, hash, x, z).floor == if At(l.g, x, z) == 1 then [FloorVisual(l, x, z)] else []
  {
  }

  /** The decoration branch adds no floor tile and at most pillars keyed by
      the cell, and its collision shapes are its stair steps followed by its
      pillar's box. */
  lemma DecorShape(l: Layout, hash: (int, int) -> real, x: int, z: int)
    ensures var d := RoomDecor(l, hash, x, z);
      && d.shapes == StairBoxes(d.decor) + Boxes(d.walls)
      && (forall v :: v in d.walls ==> KeyCell(v.key) == (x, z) && (v.key.RoomPillar? || v.key.CorridorPillar?))
  {
    var d := RoomDecor(l, hash, x, z);
    if RoomTypeAt(l, x, z) == 1 && hash(x, z) < RingChance {
      assert d.decor[..0] == [];
    } else if RoomTypeAt(l, x, z) == 2 && hash(x, z) < StairChance {
      assert Boxes(d.walls) == [];
    } else {
      assert StairBoxes(d.decor) == [];
    }
  }

  /** A cell's collision shapes are its stair steps followed by the boxes of its wall meshes. */
  lemma CellBalanced(l: Layout, hash: (int, int) -> real, x: int, z: int)
    ensures var p := CellPieces(l, hash, x, z); p.shapes == StairBoxes(p.decor) + Boxes(p.walls)
  {
    if At(l.g, x, z) == 1 {
      DecorShape(l, hash, x, z);
      WithSides(RoomDecor(l, hash, x, z), SideWalls(l, x, z, 4), [FloorVisual(l, x, z)]);
    }
  }

  /** Adding wall meshes together with their boxes keeps the shapes the
      stair steps followed by the wall boxes. */
  lemma WithSides(d: Pieces, sides: seq<Visual>, floor: seq<Visual>)
    requires d.shapes == StairBoxes(d.decor) + Boxes(d.walls)
    ensures var p := Pieces(d.shapes + Boxes(sides), floor, d.walls + sides, d.decor);
      p.shapes == StairBoxes(p.decor) + Boxes(p.walls)
  {
    BoxesConcat(d.walls, sides);
    assert (StairBoxes(d.decor) + Boxes(d.walls)) + Boxes(sides) == StairBoxes(d.decor) + (Boxes(d.walls) + Boxes(sides));
  }

  /** An open cell's wall meshes are its own: boundary walls on exposed
      sides, in that side's place, and at most one pillar, which a pillar
      room or a corridor cell and the cell's hash allow. */
  lemma CellWalls(l: Layout, hash: (int, int) -> real, x: int, z: int)
    ensures var p := CellPieces(l, hash, x, z);
      && (forall v :: v in p.walls ==> KeyCell(v.key) == (x, z) && !v.key.FloorTile? && At(l.g, x, z) == 1)
      && (forall v :: v in p.walls && v.key.Boundary? ==>
            0 <= v.key.side < 4 && Exposed(l, x, z, v.key.side) && v == SideWall(l, x, z, v.key.side))
      && (forall v :: v in p.walls && v.key.RoomPillar? ==>
            RoomTypeAt(l, x, z) == 3 && hash(x, z) < PillarChance && v.box.args == V3(0.8, 11.0, 0.8))
      && (forall v :: v in p.walls && v.key.CorridorPillar? ==>
            At(l.roomMap, x, z) < 0 && hash(x, z) < CorridorPillarChance &&
            v.box == Box(V3(WX(l, x), 3.5, WZ(l, z)), V3(1.2, 11.0, 1.2)))
  {
    if At(l.g, x, z) == 1 {
      SideWallsShape(l, x, z, 4);
    }
  }

  /** An open cell's decorations are its own: a ring in a float room, or
      the three steps of a stair in place in a stair room. */
  lemma CellDecor(l: Layout, hash: (int, int) -> real, x: int, z: int)
    ensures var p := CellPieces(l, hash, x, z);
      && (forall d :: d in p.decor ==> (d.x, d.z) == (x, z) && At(l.g, x, z) == 1)
      && (forall d :: d in p.decor && d.Ring? ==> RoomTypeAt(l, x, z) == 1 && hash(x, z) < RingChance)
      && (forall d :: d in p.decor && d.Stair? ==>
            RoomTypeAt(l, x, z) == 2 && hash(x, z) < StairChance &&
            0 <= d.step < 3 && d.box == StairBox(l, x, z, d.step))
  {
    if At(l.g, x, z) == 1 {
      StairStepsShape(l, x, z, 3);
    }
  }

  /** An open cell's floor tile appears once in its floor list; a side's
      boundary wall appears once in its wall list exactly when the cell is
      open and the side exposed. */
  lemma CellCounts(l: Layout, hash: (int, int) -> real, x: int, z: int, i: int)
    ensures KeyCount(CellPieces(l, hash, x, z).floor, FloorTile(x, z)) == if At(l.g, x, z) == 1 then 1 else 0
    ensures KeyCount(CellPieces(l, hash, x, z).walls, Boundary(x, z, i)) ==
      if At(l.g, x, z) == 1 && 0 <= i < 4 && Exposed(l, x, z, i) then 1 else 0
  {
    if At(l.g, x, z) == 1 {
      var d := RoomDecor(l, hash, x, z);
      SideWallCount(l, x, z, 4, i);
      KeyCountConcat(d.walls, SideWalls(l, x, z, 4), Boundary(x, z, i));
      KeyCountAppend([], FloorVisual(l, x, z), FloorTile(x, z));
      assert [] + [FloorVisual(l, x, z)] == [FloorVisual(l, x, z)];
      DecorShape(l, hash, x, z);
      KeyCountAbsent(d.walls, Boundary(x, z, i));
    }
  }

  /** Every floor tile and wall mesh of `p` is keyed by cell `c`, and every
      decoration stands on it. */
  ghost predicate OwnKeys(p: Pieces, c: (int, int))
  {
    && (forall v :: v in p.floor ==> KeyCell(v.key) == c)
    && (forall v :: v in p.walls ==> KeyCell(v.key) == c)
    && (forall d: Decoration :: d in p.decor ==> (d.x, d.z) == c)
  }

  /** The collision shapes are the stair steps and the wall-mesh boxes, as a multiset. */
  ghost predicate Balanced(p: Pieces)
  {
    multiset(p.shapes) == multiset(StairBoxes(p.decor)) + multiset(Boxes(p.walls))
  }

  lemma CellsKeyed(l: Layout, hash: (int, int) -> real)
    ensures Keyed(Cells(l, hash))
  {
    forall x, z
      ensures OwnKeys(Cells(l, hash)(x, z), (x, z))
    {
      CellFloor(l, hash, x, z);
      CellWalls(l, hash, x, z);
      CellDecor(l, hash, x, z);
    }
  }

  lemma CellsBalanced(l: Layout, hash: (int, int) -> real)
    ensures AllBalanced(Cells(l, hash))
  {
    forall x, z
      ensures Balanced(Cells(l, hash)(x, z))
    {
      CellBalanced(l, hash, x, z);
    }
  }

  // ---------------------------------------------------------------------
  // From cells to columns and blocks, for any cell contributions.

  /** Every cell's contribution is keyed by that cell. */
  ghost predicate Keyed(cell: (int, int) -> Pieces)
  {
    forall x, z :: OwnKeys(cell(x, z), (x, z))
  }

  ghost predicate AllBalanced(cell: (int, int) -> Pieces)
  {
    forall x, z :: Balanced(cell(x, z))
  }

  /** The number of visuals keyed `k` in the floor list (`floorList`) or the wall list. */
  function CountKey(p: Pieces, floorList: bool, k: Key): nat
  {
    KeyCount(if floorList then p.floor else p.walls, k)
  }

  lemma CountJoin(a: Pieces, b: Pieces, floorList: bool, k: Key)
    ensures CountKey(Join(a, b), floorList, k) == CountKey(a, floorList, k) + CountKey(b, floorList, k)
  {
    if floorList {
      KeyCountConcat(a.floor, b.floor, k);
    } else {
      KeyCountConcat(a.walls, b.walls, k);
    }
  }

  /** A part keyed by another cell holds no visual keyed `k`. */
  lemma ForeignKey(p: Pieces, c: (int, int), floorList: bool, k: Key)
    requires OwnKeys(p, c) && KeyCell(k) != c
    ensures CountKey(p, floorList, k) == 0
  {
    if floorList {
      KeyCountAbsent(p.floor, k);
    } else {
      KeyCountAbsent(p.walls, k);
    }
  }

  lemma {:induction false} ColumnCount(cell: (int, int) -> Pieces, x: int, sz: int, ez: int, floorList: bool, k: Key)
    requires Keyed(cell)
    ensures CountKey(Column(cell, x, sz, ez), floorList, k) ==
      if k.x == x && sz <= k.z < ez then CountKey(cell(x, k.z), floorList, k) else 0
    decreases ez - sz
  {
    if sz < ez {
      ColumnCount(cell, x, sz, ez - 1, floorList, k);
      CountJoin(Column(cell, x, sz, ez - 1), cell(x, ez - 1), floorList, k);
      if KeyCell(k) != (x, ez - 1) {
        ForeignKey(cell(x, ez - 1), (x, ez - 1), floorList, k);
      }
    }
  }

  lemma {:induction false} BlockCount(cell: (int, int) -> Pieces, sx: int, ex: int, sz: int, ez: int, floorList: bool, k: Key)
    requires Keyed(cell)
    ensures CountKey(Block(cell, sx, ex, sz, ez), floorList, k) ==
      if InRect(KeyCell(k), sx, ex, sz, ez) then CountKey(cell(k.x, k.z), floorList, k) else 0
    decreases ex - sx
  {
    if sx < ex {
      BlockCount(cell, sx, ex - 1, sz, ez, floorList, k);
      CountJoin(Block(cell, sx, ex - 1, sz, ez), Column(cell, ex - 1, sz, ez), floorList, k);
      ColumnCount(cell, ex - 1, sz, ez, floorList, k);
    }
  }

  lemma JoinBalanced(a: Pieces, b: Pieces)
    requires Balanced(a) && Balanced(b)
    ensures Balanced(Join(a, b))
  {
    StairBoxesConcat(a.decor, b.decor);
    BoxesConcat(a.walls, b.walls);
  }

  lemma {:induction false} ColumnBalanced(cell: (int, int) -> Pieces, x: int, sz: int, ez: int)
    requires AllBalanced(cell)
    ensures Balanced(Column(cell, x, sz, ez))
    decreases ez - sz
  {
    if sz < ez {
      ColumnBalanced(cell, x, sz, ez - 1);
      JoinBalanced(Column(cell, x, sz, ez - 1), cell(x, ez - 1));
    }
  }

  lemma {:induction false} BlockBalanced(cell: (int, int) -> Pieces, sx: int, ex: int, sz: int, ez: int)
    requires AllBalanced(cell)
    ensures Balanced(Block(cell, sx, ex, sz, ez))
    decreases ex - sx
  {
    if sx < ex {
      BlockBalanced(cell, sx, ex - 1, sz, ez);
      ColumnBalanced(cell, ex - 1, sz, ez);
      JoinBalanced(Block(cell, sx, ex - 1, sz, ez), Column(cell, ex - 1, sz, ez));
    }
  }

  /** Every floor tile, wall mesh and decoration of `p` is one that the cell
      it is keyed by contributes, and that cell lies in the rectangle. */
  ghost predicate FromCells(cell: (int, int) -> Pieces, p: Pieces, sx: int, ex: int, sz: int, ez: int)
  {
    && (forall v :: v in p.floor ==> InRect(KeyCell(v.key), sx, ex, sz, ez) && v in cell(v.key.x, v.key.z).floor)
    && (forall v :: v in p.walls ==> InRect(KeyCell(v.key), sx, ex, sz, ez) && v in cell(v.key.x, v.key.z).walls)
    && (forall d: Decoration :: d in p.decor ==> InRect((d.x, d.z), sx, ex, sz, ez) && d in cell(d.x, d.z).decor)
  }

  lemma CellFrom(cell: (int, int) -> Pieces, x: int, z: int)
    requires OwnKeys(cell(x, z), (x, z))
    ensures FromCells(cell, cell(x, z), x, x + 1, z, z + 1)
  {
  }

  lemma FromWiden(cell: (int, int) -> Pieces, p: Pieces, sx: int, ex: int, sz: int, ez: int,
                  sx': int, ex': int, sz': int, ez': int)
    requires FromCells(cell, p, sx, ex, sz, ez) && sx' <= sx && ex <= ex' && sz' <= sz && ez <= ez'
    ensures FromCells(cell, p, sx', ex', sz', ez')
  {
  }

  lemma JoinFrom(cell: (int, int) -> Pieces, a: Pieces, b: Pieces, sx: int, ex: int, sz: int, ez: int)
    requires FromCells(cell, a, sx, ex, sz, ez) && FromCells(cell, b, sx, ex, sz, ez)
    ensures FromCells(cell, Join(a, b), sx, ex, sz, ez)
  {
  }

  lemma {:induction false} ColumnFrom(cell: (int, int) -> Pieces, x: int, sz: int, ez: int)
    requires Keyed(cell)
    ensures FromCells(cell, Column(cell, x, sz, ez), x, x + 1, sz, ez)
    decreases ez - sz
  {
    if sz < ez {
      ColumnFrom(cell, x, sz, ez - 1);
      FromWiden(cell, Column(cell, x, sz, ez - 1), x, x + 1, sz, ez - 1, x, x + 1, sz, ez);
      CellFrom(cell, x, ez - 1);
      FromWiden(cell, cell(x, ez - 1), x, x + 1, ez - 1, ez, x, x + 1, sz, ez);
      JoinFrom(cell, Column(cell, x, sz, ez - 1), cell(x, ez - 1), x, x + 1, sz, ez);
    }
  }

  lemma {:induction false} BlockFrom(cell: (int, int) -> Pieces, sx: int, ex: int, sz: int, ez: int)
    requires Keyed(cell)
    ensures FromCells(cell, Block(cell, sx, ex, sz, ez), sx, ex, sz, ez)
    decreases ex - sx
  {
    if sx < ex {
      BlockFrom(cell, sx, ex - 1, sz, ez);
      FromWiden(cell, Block(cell, sx, ex - 1, sz, ez), sx, ex - 1, sz, ez, sx, ex, sz, ez);
      ColumnFrom(cell, ex - 1, sz, ez);
      FromWiden(cell, Column(cell, ex - 1, sz, ez), ex - 1, ex, sz, ez, sx, ex, sz, ez);
      JoinFrom(cell, Block(cell, sx, ex - 1, sz, ez), Column(cell, ex - 1, sz, ez), sx, ex, sz, ez);
    }
  }

  // ---------------------------------------------------------------------
  // What a chunk shows.

  /** Within a chunk only the key's own cell, when it is a chunk cell, holds that key. */
  lemma ChunkCount(l: Layout, hash: (int, int) -> real, cx: nat, cz: nat, floorList: bool, k: Key)
    ensures CountKey(ChunkOf(l, hash, cx, cz), floorList, k) ==
      if InChunkCells(cx, cz, KeyCell(k)) then CountKey(CellPieces(l, hash, k.x, k.z), floorList, k) else 0
  {
    CellsKeyed(l, hash);
    BlockCount(Cells(l, hash), cx * ChunkSize, Chunks.ChunkEnd(cx, ChunkSize, Level37Grid.Grid),
               cz * ChunkSize, Chunks.ChunkEnd(cz, ChunkSize, Level37Grid.Grid), floorList, k);
  }

  /** Every open cell of a chunk gets exactly one floor tile, and no other
      cell, in or out of the chunk, gets one there. */
  lemma FloorTilesOnce(l: Layout, hash: (int, int) -> real, cx: nat, cz: nat, x: int, z: int)
    ensures KeyCount(ChunkOf(l, hash, cx, cz).floor, FloorTile(x, z)) ==
      if InChunkCells(cx, cz, (x, z)) && At(l.g, x, z) == 1 then 1 else 0
  {
    ChunkCount(l, hash, cx, cz, true, FloorTile(x, z));
    CellCounts(l, hash, x, z, 0);
  }

  /** Side `i` (of the four) of a chunk cell gets exactly one boundary wall
      when the cell is open and the side faces solid ground or the grid
      edge, and none otherwise. */
  lemma BoundaryWallsOnce(l: Layout, hash: (int, int) -> real, cx: nat, cz: nat, x: int, z: int, i: int)
    ensures KeyCount(ChunkOf(l, hash, cx, cz).walls, Boundary(x, z, i)) ==
      if InChunkCells(cx, cz, (x, z)) && At(l.g, x, z) == 1 && 0 <= i < 4 && Exposed(l, x, z, i) then 1 else 0
  {
    ChunkCount(l, hash, cx, cz, false, Boundary(x, z, i));
    CellCounts(l, hash, x, z, i);
  }

  /** A chunk's collision shapes are exactly its stair steps and the boxes
      of its wall meshes (boundary walls and pillars), as a multiset. */
  lemma ShapesAccounted(l: Layout, hash: (int, int) -> real, cx: nat, cz: nat)
    ensures var p := ChunkOf(l, hash, cx, cz);
      multiset(p.shapes) == multiset(StairBoxes(p.decor)) + multiset(Boxes(p.walls))
  {
    CellsBalanced(l, hash);
    BlockBalanced(Cells(l, hash), cx * ChunkSize, Chunks.ChunkEnd(cx, ChunkSize, Level37Grid.Grid),
                  cz * ChunkSize, Chunks.ChunkEnd(cz, ChunkSize, Level37Grid.Grid));
  }

  /** Everything a chunk shows comes from a chunk cell that contributes it. */
  lemma ChunkFrom(l: Layout, hash: (int, int) -> real, cx: nat, cz: nat)
    ensures FromCells(Cells(l, hash), ChunkOf(l, hash, cx, cz),
                      cx * ChunkSize, Chunks.ChunkEnd(cx, ChunkSize, Level37Grid.Grid),
                      cz * ChunkSize, Chunks.ChunkEnd(cz, ChunkSize, Level37Grid.Grid))
  {
    CellsKeyed(l, hash);
    BlockFrom(Cells(l, hash), cx * ChunkSize, Chunks.ChunkEnd(cx, ChunkSize, Level37Grid.Grid),
              cz * ChunkSize, Chunks.ChunkEnd(cz, ChunkSize, Level37Grid.Grid));
  }

  /** The cell a chunk's floor tile is keyed by is an open chunk cell, and
      the tile is that cell's own. */
  lemma FloorOrigin(l: Layout, hash: (int, int) -> real, cx: nat, cz: nat, v: Visual)
    requires v in ChunkOf(l, hash, cx, cz).floor
    ensures InChunkCells(cx, cz, KeyCell(v.key)) && At(l.g, v.key.x, v.key.z) == 1 && v == FloorVisual(l, v.key.x, v.key.z)
  {
    ChunkFrom(l, hash, cx, cz);
    CellFloor(l, hash, v.key.x, v.key.z);
  }

  /** The cell a chunk's wall mesh is keyed by is a chunk cell that contributes it. */
  lemma WallOrigin(l: Layout, hash: (int, int) -> real, cx: nat, cz: nat, v: Visual)
    requires v in ChunkOf(l, hash, cx, cz).walls
    ensures InChunkCells(cx, cz, KeyCell(v.key)) && v in CellPieces(l, hash, v.key.x, v.key.z).walls
  {
    ChunkFrom(l, hash, cx, cz);
  }

  /** The cell a chunk's decoration stands on is a chunk cell that contributes it. */
  lemma DecorOrigin(l: Layout, hash: (int, int) -> real, cx: nat, cz: nat, d: Decoration)
    requires d in ChunkOf(l, hash, cx, cz).decor
    ensures InChunkCells(cx, cz, (d.x, d.z)) && d in CellPieces(l, hash, d.x, d.z).decor
  {
    ChunkFrom(l, hash, cx, cz);
  }

  /** Every floor tile of a chunk lies under an open cell of the chunk;
      every boundary wall stands on an exposed side of an open cell of the
      chunk, in that side's place; room pillars stand only in pillar rooms
      and corridor pillars only on corridor cells. */
  lemma ChunkWallPlacement(l: Layout, hash: (int, int) -> real, cx: nat, cz: nat)
    ensures var p := ChunkOf(l, hash, cx, cz);
      && (forall v :: v in p.floor ==>
            InChunkCells(cx, cz, KeyCell(v.key)) && At(l.g, v.key.x, v.key.z) == 1 &&
            v == FloorVisual(l, v.key.x, v.key.z))
      && (forall v :: v in p.walls ==> InChunkCells(cx, cz, KeyCell(v.key)) && At(l.g, v.key.x, v.key.z) == 1)
      && (forall v :: v in p.walls && v.key.Boundary? ==>
            0 <= v.key.side < 4 && Exposed(l, v.key.x, v.key.z, v.key.side) &&
            v == SideWall(l, v.key.x, v.key.z, v.key.side))
      && (forall v :: v in p.walls && v.key.RoomPillar? ==> RoomTypeAt(l, v.key.x, v.key.z) == 3)
      && (forall v :: v in p.walls && v.key.CorridorPillar? ==> At(l.roomMap, v.key.x, v.key.z) < 0)
  {
    var p := ChunkOf(l, hash, cx, cz);
    forall v | v in p.floor
      ensures InChunkCells(cx, cz, KeyCell(v.key)) && At(l.g, v.key.x, v.key.z) == 1 &&
        v == FloorVisual(l, v.key.x, v.key.z)
    {
      FloorOrigin(l, hash, cx, cz, v);
    }
    forall v | v in p.walls
      ensures InChunkCells(cx, cz, KeyCell(v.key)) && At(l.g, v.key.x, v.key.z) == 1
      ensures v.key.Boundary? ==>
        0 <= v.key.side < 4 && Exposed(l, v.key.x, v.key.z, v.key.side) &&
        v == SideWall(l, v.key.x, v.key.z, v.key.side)
      ensures v.key.RoomPillar? ==> RoomTypeAt(l, v.key.x, v.key.z) == 3
      ensures v.key.CorridorPillar? ==> At(l.roomMap, v.key.x, v.key.z) < 0
    {
      WallOrigin(l, hash, cx, cz, v);
      CellWalls(l, hash, v.key.x, v.key.z);
    }
  }

  /** Every decoration of a chunk belongs to an open cell of the chunk;
      stair steps stand in place in stair rooms and rings float in float
      rooms. */
  lemma ChunkDecorPlacement(l: Layout, hash: (int, int) -> real, cx: nat, cz: nat)
    ensures var p := ChunkOf(l, hash, cx, cz);
      && (forall d :: d in p.decor ==> InChunkCells(cx, cz, (d.x, d.z)) && At(l.g, d.x, d.z) == 1)
      && (forall d :: d in p.decor && d.Stair? ==>
            RoomTypeAt(l, d.x, d.z) == 2 && 0 <= d.step < 3 && d.box == StairBox(l, d.x, d.z, d.step))
      && (forall d :: d in p.decor && d.Ring? ==> RoomTypeAt(l, d.x, d.z) == 1)
  {
    var p := ChunkOf(l, hash, cx, cz);
    forall d | d in p.decor
      ensures InChunkCells(cx, cz, (d.x, d.z)) && At(l.g, d.x, d.z) == 1
      ensures d.Stair? ==>
        RoomTypeAt(l, d.x, d.z) == 2 && 0 <= d.step < 3 && d.box == StairBox(l, d.x, d.z, d.step)
      ensures d.Ring? ==> RoomTypeAt(l, d.x, d.z) == 1
    {
      DecorOrigin(l, hash, cx, cz, d);
      CellDecor(l, hash, d.x, d.z);
    }
  }

  // ---------------------------------------------------------------------
  // The view.

  /** Chunks per side: `ceil(60 / 10)`. */
  const NumC: nat := 6

  lemma NumCIsCeiling()
    ensures NumC == Chunks.NumChunks(Level37Grid.Grid, ChunkSize)
  {
  }

  /** The chunk index under a camera coordinate, for origin shift `o` and
      centring offset `off`: `floor(((cam - o + off) / 3) / 10)`. */
  function ViewChunk(cam: real, o: real, off: real): (c: int)
    ensures 30.0 * c as real <= cam - o + off < 30.0 * (c as real + 1.0)
  {
    (((cam - o + off) / Level37Grid.CS) / ChunkSize as real).Floor
  }

  /** The initial view chunk: `floor(floor(60 / 2) / 10)`. */
  const SpawnC: int := (Level37Grid.Grid / 2) / ChunkSize

  /** A camera over the centre of cell `i` sees the chunk holding `i`; in
      particular the player's spawn point 4.5 lies in the initial view chunk
      when the origin shift is the start room's. */
  lemma ViewOverCell(i: int, o: real)
    ensures ViewChunk(Level37Grid.World(i, o), o, Level37Grid.Off) == i / ChunkSize
    ensures SpawnC == 3 && ViewChunk(4.5, 3.0, Level37Grid.Off) == SpawnC
  {
    var q := i / ChunkSize;
    assert i == 10 * q + i % ChunkSize;
    var c := ViewChunk(Level37Grid.World(i, o), o, Level37Grid.Off);
    assert 10 * c <= i < 10 * c + 10;
    var c2 := ViewChunk(4.5, 3.0, Level37Grid.Off);
    assert 30.0 * c2 as real <= 90.0 < 30.0 * (c2 as real + 1.0);
    assert c2 == 3;
  }

  /** The per-frame view update. */
  method TrackView(view: Chunks.ViewTracker, l: Layout, camX: real, camZ: real) returns (changed: bool)
    modifies view
    ensures view.cx == ViewChunk(camX, l.oX, l.off) && view.cz == ViewChunk(camZ, l.oZ, l.off)
    ensures changed <==> (view.cx, view.cz) != (old(view.cx), old(view.cz))
  {
    changed := view.Update(ViewChunk(camX, l.oX, l.off), ViewChunk(camZ, l.oZ, l.off));
  }

  /** The rendered chunks: those of the 6 x 6 chunk grid within Chebyshev
      radius 2 of the view centre, once each, in loop order. */
  method VisibleChunks(vx: int, vz: int) returns (chunks: seq<(int, int)>)
    ensures forall c :: c in chunks <==> 0 <= c.0 < NumC && 0 <= c.1 < NumC && Chunks.Active(c.0, c.1, vx, vz)
    ensures forall i, j :: 0 <= i < j < |chunks| ==> Chunks.Before(chunks[i], chunks[j])
  {
    chunks := Chunks.ActiveChunks(NumC, NumC, vx, vz);
  }
}
