/** Level 37, the grid generator: a 60 x 60 grid of solid (0) and open (1)
    cells, with a map from cells to the room that owns them (-1 for none).
    Rooms are placed by rejection sampling around a fixed 3 x 3 start room,
    carved, joined in placement order by L-shaped corridors, and decorated
    with short dead-end tunnels. The grid is indexed `g[x][z]`. */
module Level37Grid {
  import opened Geometry

  /** Cells per grid side (`GRID`) and world units per cell (`CS`). */
  const Grid: nat := 60
  const CS := 3.0
  const MaxRooms: nat := 30
  const MaxTries: nat := 800
  /** Open cells whose second hash is above this spawn no tunnel. */
  const TunnelChance := 0.04

  datatype Room = Room(x: int, z: int, w: int, h: int)

  /** Room 0: the 3 x 3 block at `(GRID / 2 - 1, GRID / 2 - 1)`. */
  const StartRoom := Room(29, 29, 3, 3)

  predicate InRoom(r: Room, x: int, z: int)
  {
    r.x <= x < r.x + r.w && r.z <= z < r.z + r.h
  }

  /** The rejection test: candidate `a` reaches into `r` grown by 2 cells
      on every side. */
  predicate Overlaps(a: Room, r: Room)
  {
    a.x < r.x + r.w + 2 && a.x + a.w > r.x - 2 && a.z < r.z + r.h + 2 && a.z + a.h > r.z - 2
  }

  /** Rooms that pass the test against each other share no cell and are at
      least two cells apart on one axis; the test does not depend on which
      of the two is the candidate. */
  lemma SeparatedRooms(a: Room, r: Room, ca: (int, int), cr: (int, int))
    requires a.w > 0 && a.h > 0 && r.w > 0 && r.h > 0
    requires !Overlaps(a, r)
    requires InRoom(a, ca.0, ca.1) && InRoom(r, cr.0, cr.1)
    ensures !Overlaps(r, a)
    ensures IntAbs(ca.0 - cr.0) > 2 || IntAbs(ca.1 - cr.1) > 2
  {
  }

  /** The shape of a randomly drawn room: sides in {2, 3, 4} and an origin
      in `[2, GRID - side - 3]` on each axis. */
  predicate RandomShape(r: Room)
  {
    2 <= r.w <= 4 && 2 <= r.h <= 4 && 2 <= r.x <= Grid - r.w - 3 && 2 <= r.z <= Grid - r.h - 3
  }

  /** Every cell of the room lies in `[2, GRID - 4]` on both axes. */
  predicate InBand(r: Room)
  {
    1 <= r.w && 1 <= r.h && 2 <= r.x && r.x + r.w <= Grid - 3 && 2 <= r.z && r.z + r.h <= Grid - 3
  }

  /** The candidate of one try, from four consecutive draws: width, height,
      then the origin on x and on z. */
  function Candidate(rand: nat -> real, k: nat): (r: Room)
    requires IsRandomSource(rand)
    ensures RandomShape(r) && InBand(r)
  {
    var w := 2 + ScaledFloor(rand(k), 3);
    var h := 2 + ScaledFloor(rand(k + 1), 3);
    Room(2 + ScaledFloor(rand(k + 2), Grid - w - 4), 2 + ScaledFloor(rand(k + 3), Grid - h - 4), w, h)
  }

  /** The candidate of try `t` when the first try starts at draw `k0`. */
  function Draw(rand: nat -> real, k0: nat, t: nat): Room
    requires IsRandomSource(rand)
  {
    Candidate(rand, k0 + 4 * t)
  }

  /** `rooms.some(r => overlaps(candidate, r))`. */
  predicate SomeOverlap(rooms: seq<Room>, a: Room)
  {
    if rooms == [] then false
    else Overlaps(a, rooms[0]) || SomeOverlap(rooms[1..], a)
  }

  /** `SomeOverlap` holds exactly when some room fails the test. */
  lemma {:induction false} SomeOverlapIff(rooms: seq<Room>, a: Room)
    ensures SomeOverlap(rooms, a) <==> exists i :: 0 <= i < |rooms| && Overlaps(a, rooms[i])
  {
    if rooms != [] {
      SomeOverlapIff(rooms[1..], a);
      if SomeOverlap(rooms[1..], a) {
        var i :| 0 <= i < |rooms[1..]| && Overlaps(a, rooms[1..][i]);
        assert Overlaps(a, rooms[i + 1]);
      }
      if exists i :: 0 <= i < |rooms| && Overlaps(a, rooms[i]) {
        var i :| 0 <= i < |rooms| && Overlaps(a, rooms[i]);
        if i > 0 {
          assert rooms[1..][i - 1] == rooms[i];
        }
      }
    }
  }

  /** Every room after the start room is the candidate of one of the first
      `tries` tries. */
  ghost predicate FromDraws(rooms: seq<Room>, rand: nat -> real, k0: nat, tries: nat)
    requires IsRandomSource(rand)
  {
    forall i :: 1 <= i < |rooms| ==> exists t: nat :: t < tries && rooms[i] == Draw(rand, k0, t)
  }

  /** Every candidate of the first `tries` tries was kept, or overlaps a room. */
  ghost predicate DroppedOnOverlap(rooms: seq<Room>, rand: nat -> real, k0: nat, tries: nat)
    requires IsRandomSource(rand)
  {
    forall t: nat :: t < tries ==> Draw(rand, k0, t) in rooms || SomeOverlap(rooms, Draw(rand, k0, t))
  }

  predicate PairwiseSeparated(rooms: seq<Room>)
  {
    forall i, j :: 0 <= i < j < |rooms| ==> !Overlaps(rooms[j], rooms[i])
  }

  predicate AllInBand(rooms: seq<Room>)
  {
    forall i :: 0 <= i < |rooms| ==> InBand(rooms[i])
  }

  /** The rooms after the first `t` tries: each try that finds fewer than 30
      rooms appends its candidate exactly when it overlaps none of the rooms
      accepted before it. */
  function Placed(rand: nat -> real, k0: nat, t: nat): (rooms: seq<Room>)
    requires IsRandomSource(rand)
    ensures 1 <= |rooms| <= MaxRooms && rooms[0] == StartRoom
  {
    if t == 0 then [StartRoom]
    else
      var before := Placed(rand, k0, t - 1);
      if |before| < MaxRooms && !SomeOverlap(before, Draw(rand, k0, t - 1)) then before + [Draw(rand, k0, t - 1)]
      else before
  }

  /** Room placement: the start room, then tries until 30 rooms or 800 tries.
      The rooms are exactly `Placed` after the tries made: each accepted room
      is one try's candidate, tested against all earlier rooms, and a
      candidate is dropped only when it overlaps an earlier room. */
  method PlaceRooms(rand: nat -> real, k0: nat) returns (rooms: seq<Room>, k: nat, tries: nat)
    requires IsRandomSource(rand)
    ensures 1 <= |rooms| <= MaxRooms && rooms[0] == StartRoom
    ensures tries <= MaxTries && (|rooms| == MaxRooms || tries == MaxTries)
    ensures k == k0 + 4 * tries
    ensures forall i :: 1 <= i < |rooms| ==> RandomShape(rooms[i])
    ensures AllInBand(rooms)
    ensures PairwiseSeparated(rooms)
    ensures FromDraws(rooms, rand, k0, tries)
    ensures DroppedOnOverlap(rooms, rand, k0, tries)
    ensures rooms == Placed(rand, k0, tries)
  {
    rooms, k, tries := TryRooms(rand, k0);
    PlacedShapes(rand, k0, tries);
    PlacedFromDraws(rand, k0, tries);
    PlacedDropped(rand, k0, tries);
  }

  /** The loop of tries: it stops at 30 rooms or 800 tries, and its rooms
      are those `Placed` after the tries made, none of which found 30 rooms
      already placed. */
  method TryRooms(rand: nat -> real, k0: nat) returns (rooms: seq<Room>, k: nat, tries: nat)
    requires IsRandomSource(rand)
    ensures tries <= MaxTries && (|rooms| == MaxRooms || tries == MaxTries)
    ensures k == k0 + 4 * tries
    ensures rooms == Placed(rand, k0, tries)
    ensures tries == 0 || |Placed(rand, k0, tries - 1)| < MaxRooms
  {
    rooms := [StartRoom];
    tries := 0;
    while |rooms| < MaxRooms && tries < MaxTries
      invariant tries <= MaxTries
      invariant rooms == Placed(rand, k0, tries)
      invariant tries == 0 || |Placed(rand, k0, tries - 1)| < MaxRooms
      decreases MaxTries - tries
    {
      rooms := TryRoom(rand, k0, rooms, tries);
      tries := tries + 1;
    }
    k := k0 + 4 * tries;
  }

  /** Try `t`: draw a candidate and keep it when it overlaps no placed room. */
  method TryRoom(rand: nat -> real, k0: nat, rooms: seq<Room>, t: nat) returns (after: seq<Room>)
    requires IsRandomSource(rand)
    requires rooms == Placed(rand, k0, t) && |rooms| < MaxRooms
    ensures after == Placed(rand, k0, t + 1)
  {
    var candidate := DrawRoom(rand, k0 + 4 * t);
    after := rooms;
    if !SomeOverlap(rooms, candidate) {
      after := rooms + [candidate];
    }
  }

  /** Placed rooms have the drawn shape, lie in the band, and pass the
      overlap test against each other. */
  lemma {:induction false} PlacedShapes(rand: nat -> real, k0: nat, t: nat)
    requires IsRandomSource(rand)
    ensures forall i :: 1 <= i < |Placed(rand, k0, t)| ==> RandomShape(Placed(rand, k0, t)[i])
    ensures AllInBand(Placed(rand, k0, t))
    ensures PairwiseSeparated(Placed(rand, k0, t))
  {
    if t > 0 {
      PlacedShapes(rand, k0, t - 1);
      var before, c := Placed(rand, k0, t - 1), Draw(rand, k0, t - 1);
      if |before| < MaxRooms && !SomeOverlap(before, c) {
        SomeOverlapIff(before, c);
        var rooms := before + [c];
        forall i, j | 0 <= i < j < |rooms|
          ensures !Overlaps(rooms[j], rooms[i])
        {
          if j == |before| {
            assert rooms[i] == before[i];
          } else {
            assert rooms[i] == before[i] && rooms[j] == before[j];
          }
        }
      }
    }
  }

  /** Every room after the start room is the candidate of an earlier try. */
  lemma {:induction false} PlacedFromDraws(rand: nat -> real, k0: nat, t: nat)
    requires IsRandomSource(rand)
    ensures FromDraws(Placed(rand, k0, t), rand, k0, t)
  {
    if t > 0 {
      PlacedFromDraws(rand, k0, t - 1);
      var before, rooms := Placed(rand, k0, t - 1), Placed(rand, k0, t);
      forall i | 1 <= i < |rooms|
        ensures exists t': nat :: t' < t && rooms[i] == Draw(rand, k0, t')
      {
        if i < |before| {
          assert rooms[i] == before[i];
          var t': nat :| t' < t - 1 && before[i] == Draw(rand, k0, t');
        } else {
          assert rooms[i] == Draw(rand, k0, t - 1);
        }
      }
    }
  }

  /** While fewer than 30 rooms were placed, every try's candidate was kept
      or overlaps a placed room. */
  lemma {:induction false} PlacedDropped(rand: nat -> real, k0: nat, t: nat)
    requires IsRandomSource(rand)
    requires t == 0 || |Placed(rand, k0, t - 1)| < MaxRooms
    ensures DroppedOnOverlap(Placed(rand, k0, t), rand, k0, t)
  {
    if t > 0 {
      if t > 1 {
        PlacedGrows(rand, k0, t - 1);
      }
      PlacedDropped(rand, k0, t - 1);
      DroppedStep(rand, k0, t);
    }
  }

  /** A try never removes a room. */
  lemma PlacedGrows(rand: nat -> real, k0: nat, t: nat)
    requires IsRandomSource(rand) && t > 0
    ensures |Placed(rand, k0, t - 1)| <= |Placed(rand, k0, t)|
  {
  }

  /** Try `t` keeps `DroppedOnOverlap` when it finds fewer than 30 rooms. */
  lemma DroppedStep(rand: nat -> real, k0: nat, t: nat)
    requires IsRandomSource(rand)
    requires t > 0 && |Placed(rand, k0, t - 1)| < MaxRooms
    requires DroppedOnOverlap(Placed(rand, k0, t - 1), rand, k0, t - 1)
    ensures DroppedOnOverlap(Placed(rand, k0, t), rand, k0, t)
  {
    forall t': nat | t' < t
      ensures Draw(rand, k0, t') in Placed(rand, k0, t) || SomeOverlap(Placed(rand, k0, t), Draw(rand, k0, t'))
    {
      DroppedOne(rand, k0, t, t');
    }
  }

  /** The candidate of try `t'` is kept or overlaps after try `t`, given it
      was by try `t - 1`. */
  lemma DroppedOne(rand: nat -> real, k0: nat, t: nat, t': nat)
    requires IsRandomSource(rand)
    requires t' < t && |Placed(rand, k0, t - 1)| < MaxRooms
    requires DroppedOnOverlap(Placed(rand, k0, t - 1), rand, k0, t - 1)
    ensures Draw(rand, k0, t') in Placed(rand, k0, t) || SomeOverlap(Placed(rand, k0, t), Draw(rand, k0, t'))
  {
    var before, rooms, d := Placed(rand, k0, t - 1), Placed(rand, k0, t), Draw(rand, k0, t');
    assert before == rooms[..|before|];
    if t' < t - 1 {
      assert d in before || SomeOverlap(before, d);
    }
    KeptOrOverlapping(before, rooms, d);
  }

  /** A candidate kept in, or overlapping, a list of rooms is still kept
      in, or overlapping, any longer list that starts with it. */
  lemma KeptOrOverlapping(before: seq<Room>, after: seq<Room>, d: Room)
    requires |before| <= |after| && before == after[..|before|]
    requires d in before || SomeOverlap(before, d) || (|after| > |before| && after[|before|] == d)
    ensures d in after || SomeOverlap(after, d)
  {
    if d in before {
      var i :| 0 <= i < |before| && before[i] == d;
      assert after[i] == d;
    } else if SomeOverlap(before, d) {
      OverlapKept(before, after, d);
    }
  }

  /** One try's four draws: width, height, then the origin on x and on z. */
  method DrawRoom(rand: nat -> real, k: nat) returns (candidate: Room)
    requires IsRandomSource(rand)
    ensures candidate == Candidate(rand, k)
  {
    var w := 2 + ScaledFloor(rand(k), 3);
    var h := 2 + ScaledFloor(rand(k + 1), 3);
    var rx := 2 + ScaledFloor(rand(k + 2), Grid - w - 4);
    var rz := 2 + ScaledFloor(rand(k + 3), Grid - h - 4);
    candidate := Room(rx, rz, w, h);
  }

  /** An overlap with some room is still an overlap once more rooms follow. */
  lemma OverlapKept(before: seq<Room>, after: seq<Room>, a: Room)
    requires |before| <= |after| && before == after[..|before|]
    requires SomeOverlap(before, a)
    ensures SomeOverlap(after, a)
  {
    SomeOverlapIff(before, a);
    SomeOverlapIff(after, a);
    var i :| 0 <= i < |before| && Overlaps(a, before[i]);
    assert after[i] == before[i];
  }

  /** Room types: 0 for the start room, otherwise `floor(roomHash * 4)` of
      the room's origin; always one of 0 (plain), 1 (floats), 2 (stairs),
      3 (pillars). */
  function RoomTypes(rooms: seq<Room>, roomHash: (int, int) -> real): (ts: seq<int>)
    requires IsUnitHash(roomHash)
    ensures |ts| == |rooms|
    ensures |ts| > 0 ==> ts[0] == 0
    ensures forall i :: 0 <= i < |ts| ==> 0 <= ts[i] <= 3
  {
    seq(|rooms|, i requires 0 <= i < |rooms| =>
      if i == 0 then 0 else ScaledFloor(roomHash(rooms[i].x, rooms[i].z), 4))
  }

  predicate Sized(a: array2<int>)
  {
    a.Length0 == Grid && a.Length1 == Grid
  }

  predicate OnGrid(c: (int, int))
  {
    0 <= c.0 < Grid && 0 <= c.1 < Grid
  }

  /** The room a cell ends up assigned to when the rooms are carved in
      order: the last room containing it, or -1. */
  function Owner(rooms: seq<Room>, x: int, z: int): (o: int)
    ensures -1 <= o < |rooms|
    ensures o >= 0 ==> InRoom(rooms[o], x, z)
    ensures forall j :: o < j < |rooms| ==> !InRoom(rooms[j], x, z)
    decreases |rooms|
  {
    if rooms == [] then -1
    else if InRoom(rooms[|rooms| - 1], x, z) then |rooms| - 1
    else Owner(rooms[..|rooms| - 1], x, z)
  }

  /** With separated rooms, the owner of a cell of room `ri` is `ri`. */
  lemma OwnerOfRoomCell(rooms: seq<Room>, ri: int, x: int, z: int)
    requires PairwiseSeparated(rooms) && AllInBand(rooms)
    requires 0 <= ri < |rooms| && InRoom(rooms[ri], x, z)
    ensures Owner(rooms, x, z) == ri
  {
    var o := Owner(rooms, x, z);
    if o != ri {
      assert o > ri;
      SeparatedRooms(rooms[o], rooms[ri], (x, z), (x, z));
      assert false;
    }
  }

  /** Carves one room: every cell of `r` becomes open and owned by `ri`;
      every other cell keeps its values. */
  method CarveRoom(g: array2<int>, roomMap: array2<int>, r: Room, ri: int)
    requires Sized(g) && Sized(roomMap) && g != roomMap
    requires InBand(r)
    modifies g, roomMap
    ensures forall x, z :: 0 <= x < Grid && 0 <= z < Grid ==>
      g[x, z] == (if InRoom(r, x, z) then 1 else old(g[x, z])) &&
      roomMap[x, z] == (if InRoom(r, x, z) then ri else old(roomMap[x, z]))
  {
    var x := r.x;
    while x < r.x + r.w
      invariant r.x <= x <= r.x + r.w
      invariant forall a, b :: 0 <= a < Grid && 0 <= b < Grid ==>
        g[a, b] == (if InRoom(r, a, b) && a < x then 1 else old(g[a, b])) &&
        roomMap[a, b] == (if InRoom(r, a, b) && a < x then ri else old(roomMap[a, b]))
    {
      var z := r.z;
      while z < r.z + r.h
        invariant r.z <= z <= r.z + r.h
        invariant forall a, b :: 0 <= a < Grid && 0 <= b < Grid ==>
          g[a, b] == (if InRoom(r, a, b) && (a < x || (a == x && b < z)) then 1 else old(g[a, b])) &&
          roomMap[a, b] == (if InRoom(r, a, b) && (a < x || (a == x && b < z)) then ri else old(roomMap[a, b]))
      {
        g[x, z] := 1;
        roomMap[x, z] := ri;
        z := z + 1;
      }
      x := x + 1;
    }
  }

  /** Carves all rooms in order into a fresh grid (all solid, no owner):
      a cell is open exactly when some room contains it, and is mapped to
      its `Owner`. */
  method CarveRooms(g: array2<int>, roomMap: array2<int>, rooms: seq<Room>)
    requires Sized(g) && Sized(roomMap) && g != roomMap
    requires AllInBand(rooms)
    requires forall x, z :: 0 <= x < Grid && 0 <= z < Grid ==> g[x, z] == 0 && roomMap[x, z] == -1
    modifies g, roomMap
    ensures forall x, z :: 0 <= x < Grid && 0 <= z < Grid ==>
      roomMap[x, z] == Owner(rooms, x, z) && g[x, z] == (if Owner(rooms, x, z) >= 0 then 1 else 0)
  {
    var i := 0;
    while i < |rooms|
      invariant 0 <= i <= |rooms|
      invariant forall x, z :: 0 <= x < Grid && 0 <= z < Grid ==>
        roomMap[x, z] == Owner(rooms[..i], x, z) && g[x, z] == (if Owner(rooms[..i], x, z) >= 0 then 1 else 0)
    {
      CarveRoom(g, roomMap, rooms[i], i);
      assert rooms[..i + 1][..i] == rooms[..i];
      i := i + 1;
    }
    assert rooms[..i] == rooms;
  }

  /** The corridor anchor of a room: `Math.floor(x + w / 2)` on each axis. */
  function Centre(r: Room): (int, int)
  {
    (r.x + r.w / 2, r.z + r.h / 2)
  }

  /** `v` lies on the walk from `s` toward `e`, `s` included and `e` excluded. */
  predicate Walked(s: int, e: int, v: int)
  {
    (s <= v < e) || (e < v <= s)
  }

  /** The cells a corridor from `a` to `b` opens: along x on row `a.1`
      until x matches, then along z on column `b.0`; `b` itself is left
      as it is. */
  predicate OnCorridor(a: (int, int), b: (int, int), c: (int, int))
  {
    (c.1 == a.1 && Walked(a.0, b.0, c.0)) || (c.0 == b.0 && Walked(a.1, b.1, c.1))
  }

  /** Digs one L-shaped corridor: exactly the `OnCorridor` cells become open. */
  method CarveCorridor(g: array2<int>, a: (int, int), b: (int, int))
    requires Sized(g) && OnGrid(a) && OnGrid(b)
    modifies g
    ensures forall x, z :: 0 <= x < Grid && 0 <= z < Grid ==>
      g[x, z] == (if OnCorridor(a, b, (x, z)) then 1 else old(g[x, z]))
  {
    var sx, sz := a.0, a.1;
    while sx != b.0
      invariant Walked(a.0, b.0, sx) || sx == b.0
      invariant sz == a.1
      invariant forall x, z :: 0 <= x < Grid && 0 <= z < Grid ==>
        g[x, z] == (if z == a.1 && Walked(a.0, sx, x) then 1 else old(g[x, z]))
      decreases IntAbs(b.0 - sx)
    {
      g[sx, sz] := 1;
      sx := sx + (if sx < b.0 then 1 else -1);
    }
    while sz != b.1
      invariant Walked(a.1, b.1, sz) || sz == b.1
      invariant sx == b.0
      invariant forall x, z :: 0 <= x < Grid && 0 <= z < Grid ==>
        g[x, z] == (if (z == a.1 && Walked(a.0, b.0, x)) || (x == b.0 && Walked(a.1, sz, z)) then 1 else old(g[x, z]))
      decreases IntAbs(b.1 - sz)
    {
      g[sx, sz] := 1;
      sz := sz + (if sz < b.1 then 1 else -1);
    }
  }

  /** A corridor between two rooms stays inside the rooms' band. */
  lemma CorridorInBand(r1: Room, r2: Room, c: (int, int))
    requires InBand(r1) && InBand(r2)
    requires OnCorridor(Centre(r1), Centre(r2), c)
    ensures 2 <= c.0 <= Grid - 4 && 2 <= c.1 <= Grid - 4
  {
  }

  /** `c` lies on one of the corridors from room `j - 1` to room `j`, for
      some `j` in `[1, n)`. */
  predicate CorridorBefore(rooms: seq<Room>, n: int, c: (int, int))
  {
    exists j :: 1 <= j < n && j < |rooms| && OnCorridor(Centre(rooms[j - 1]), Centre(rooms[j]), c)
  }

  /** `c` lies on some corridor between consecutive rooms. */
  predicate OnSomeCorridor(rooms: seq<Room>, c: (int, int))
  {
    CorridorBefore(rooms, |rooms|, c)
  }

  /** Corridors from each room to the next: exactly the cells on some
      corridor become open, every other cell keeps its value, and only
      cells of the band `[2, GRID - 4]` change. Owners are not touched. */
  method CarveCorridors(g: array2<int>, rooms: seq<Room>)
    requires Sized(g) && AllInBand(rooms)
    modifies g
    ensures forall x, z :: 0 <= x < Grid && 0 <= z < Grid ==>
      g[x, z] == (if OnSomeCorridor(rooms, (x, z)) then 1 else old(g[x, z]))
    ensures forall x, z :: 0 <= x < Grid && 0 <= z < Grid ==>
      (g[x, z] != old(g[x, z]) ==> 2 <= x <= Grid - 4 && 2 <= z <= Grid - 4)
  {
    var i := 1;
    while i < |rooms|
      invariant 1 <= i <= |rooms| || (rooms == [] && i == 1)
      invariant forall x, z :: 0 <= x < Grid && 0 <= z < Grid ==>
        g[x, z] == (if CorridorBefore(rooms, i, (x, z)) then 1 else old(g[x, z]))
      invariant forall x, z :: 0 <= x < Grid && 0 <= z < Grid ==>
        (g[x, z] != old(g[x, z]) ==> 2 <= x <= Grid - 4 && 2 <= z <= Grid - 4)
    {
      forall x, z | 0 <= x < Grid && 0 <= z < Grid && OnCorridor(Centre(rooms[i - 1]), Centre(rooms[i]), (x, z))
        ensures 2 <= x <= Grid - 4 && 2 <= z <= Grid - 4
      {
        CorridorInBand(rooms[i - 1], rooms[i], (x, z));
      }
      CarveCorridor(g, Centre(rooms[i - 1]), Centre(rooms[i]));
      forall x, z | 0 <= x < Grid && 0 <= z < Grid
        ensures CorridorBefore(rooms, i + 1, (x, z)) <==>
          CorridorBefore(rooms, i, (x, z)) || OnCorridor(Centre(rooms[i - 1]), Centre(rooms[i]), (x, z))
      {
        CorridorBeforeNext(rooms, i, (x, z));
      }
      i := i + 1;
    }
    assert i == |rooms| || rooms == [];
  }

  /** One more room adds exactly its corridor to those before it. */
  lemma CorridorBeforeNext(rooms: seq<Room>, i: int, c: (int, int))
    requires 1 <= i < |rooms|
    ensures CorridorBefore(rooms, i + 1, c) <==>
      CorridorBefore(rooms, i, c) || OnCorridor(Centre(rooms[i - 1]), Centre(rooms[i]), c)
  {
    if CorridorBefore(rooms, i + 1, c) && !OnCorridor(Centre(rooms[i - 1]), Centre(rooms[i]), c) {
      var j :| 1 <= j < i + 1 && j < |rooms| && OnCorridor(Centre(rooms[j - 1]), Centre(rooms[j]), c);
      assert j < i;
    }
  }

  /** The tunnel direction table: `[1, -1, 0, 0][dir]`, `[0, 0, 1, -1][dir]`. */
  function DX(dir: int): int { if dir == 0 then 1 else if dir == 1 then -1 else 0 }
  function DZ(dir: int): int { if dir == 2 then 1 else if dir == 3 then -1 else 0 }

  /** Step `s` of a tunnel from `(x, z)` in direction `dir`. */
  function TunnelCell(x: int, z: int, dir: int, s: int): (int, int)
  {
    (x + DX(dir) * s, z + DZ(dir) * s)
  }

  /** Steps must stay in `[1, GRID - 2]`. */
  predicate TunnelStepInside(c: (int, int))
  {
    1 <= c.0 < Grid - 1 && 1 <= c.1 < Grid - 1
  }

  /** The placement test: every step of the tunnel lies in `[1, GRID - 2]`,
      and every step after the first is not open. The first step is not
      checked for openness. */
  predicate TunnelFits(g: array2<int>, x: int, z: int, dir: int, len: int)
    requires Sized(g)
    reads g
  {
    forall s :: 1 <= s <= len ==>
      TunnelStepInside(TunnelCell(x, z, dir, s)) &&
      (s > 1 ==> g[TunnelCell(x, z, dir, s).0, TunnelCell(x, z, dir, s).1] != 1)
  }

  /** The `canPlace` loop, leaving at the first failing step. */
  method CanPlace(g: array2<int>, x: int, z: int, dir: int, len: int) returns (canPlace: bool)
    requires Sized(g)
    ensures canPlace <==> TunnelFits(g, x, z, dir, len)
  {
    canPlace := true;
    var s := 1;
    while s <= len
      invariant 1 <= s <= len + 1 || (len < 1 && s == 1)
      invariant canPlace
      invariant forall s' :: 1 <= s' < s ==>
        TunnelStepInside(TunnelCell(x, z, dir, s')) &&
        (s' > 1 ==> g[TunnelCell(x, z, dir, s').0, TunnelCell(x, z, dir, s').1] != 1)
    {
      var nx, nz := x + DX(dir) * s, z + DZ(dir) * s;
      assert TunnelCell(x, z, dir, s) == (nx, nz);
      if nx < 1 || nx >= Grid - 1 || nz < 1 || nz >= Grid - 1 {
        canPlace := false;
        return;
      }
      if g[nx, nz] == 1 && s > 1 {
        canPlace := false;
        return;
      }
      s := s + 1;
    }
  }

  /** The cells a placed tunnel opens: steps 1 to `len`. */
  predicate OnTunnel(x: int, z: int, dir: int, len: int, c: (int, int))
  {
    0 <= dir < 4 &&
    match dir
    case 0 => c.1 == z && 1 <= c.0 - x <= len
    case 1 => c.1 == z && 1 <= x - c.0 <= len
    case 2 => c.0 == x && 1 <= c.1 - z <= len
    case _ => c.0 == x && 1 <= z - c.1 <= len
  }

  /** Step `s` of a tunnel is one of its `OnTunnel` cells, and each
      `OnTunnel` cell is a step. */
  lemma TunnelCells(x: int, z: int, dir: int, len: int, c: (int, int))
    requires 0 <= dir < 4
    ensures OnTunnel(x, z, dir, len, c) <==> exists s :: 1 <= s <= len && TunnelCell(x, z, dir, s) == c
  {
    if OnTunnel(x, z, dir, len, c) {
      var s := if dir == 0 then c.0 - x else if dir == 1 then x - c.0 else if dir == 2 then c.1 - z else z - c.1;
      assert TunnelCell(x, z, dir, s) == c;
    }
  }

  /** One tunnel attempt: when it fits, exactly its cells are opened;
      otherwise nothing changes. */
  method TryTunnel(g: array2<int>, x: int, z: int, dir: int, len: int) returns (placed: bool)
    requires Sized(g) && 0 <= dir < 4
    modifies g
    ensures placed <==> old(TunnelFits(g, x, z, dir, len))
    ensures forall a, b :: 0 <= a < Grid && 0 <= b < Grid ==>
      g[a, b] == (if placed && OnTunnel(x, z, dir, len, (a, b)) then 1 else old(g[a, b]))
  {
    placed := CanPlace(g, x, z, dir, len);
    if placed {
      var s := 1;
      while s <= len
        invariant 1 <= s && (s <= len + 1 || s == 1)
        invariant forall a, b :: 0 <= a < Grid && 0 <= b < Grid ==>
          g[a, b] == (if OnTunnel(x, z, dir, s - 1, (a, b)) then 1 else old(g[a, b]))
      {
        assert TunnelStepInside(TunnelCell(x, z, dir, s));
        g[x + DX(dir) * s, z + DZ(dir) * s] := 1;
        s := s + 1;
      }
    }
  }

  /** The direction and length a tunnel from `(x, z)` would take:
      `floor(hash(x + 7, z + 13) * 4)` and `2 + floor(hash(x + 11, z + 17) * 3)`. */
  function TunnelPlan(hash: (int, int) -> real, x: int, z: int): (p: (int, int))
    requires IsUnitHash(hash)
    ensures 0 <= p.0 < 4 && 2 <= p.1 <= 4
  {
    (ScaledFloor(hash(x + 7, z + 13), 4), 2 + ScaledFloor(hash(x + 11, z + 17), 3))
  }

  /** A placed tunnel stays inside `[1, GRID - 2]`. */
  lemma TunnelInside(g: array2<int>, x: int, z: int, dir: int, len: int, c: (int, int))
    requires Sized(g) && 0 <= dir < 4
    requires TunnelFits(g, x, z, dir, len) && OnTunnel(x, z, dir, len, c)
    ensures 1 <= c.0 <= Grid - 2 && 1 <= c.1 <= Grid - 2
  {
    TunnelCells(x, z, dir, len, c);
    var s :| 1 <= s <= len && TunnelCell(x, z, dir, s) == c;
    assert TunnelStepInside(TunnelCell(x, z, dir, s));
  }

  /** Cell `c` lies on the tunnel that origin `(x, z)` would carve: the
      origin is in the scanned band `[2, GRID - 3]`, passes the second-hash
      gate, and `c` is one of the steps of its planned tunnel. */
  predicate TunnelFrom(hash: (int, int) -> real, hash2: (int, int) -> real, x: int, z: int, c: (int, int))
    requires IsUnitHash(hash)
  {
    2 <= x < Grid - 2 && 2 <= z < Grid - 2 && hash2(x, z) <= TunnelChance &&
    OnTunnel(x, z, TunnelPlan(hash, x, z).0, TunnelPlan(hash, x, z).1, c)
  }

  /** Some open origin of the tunnel pass carves a tunnel through `c`. */
  ghost predicate Spawned(g: array2<int>, hash: (int, int) -> real, hash2: (int, int) -> real, c: (int, int))
    requires Sized(g) && IsUnitHash(hash)
    reads g
  {
    exists x, z :: TunnelFrom(hash, hash2, x, z, c) && g[x, z] == 1
  }

  /** One visit of the tunnel pass at origin `(x, z)`: when the origin is
      open and passes the second-hash gate, the planned tunnel is tried;
      exactly its cells are opened when it fits, and nothing else changes. */
  method TunnelAt(g: array2<int>, hash: (int, int) -> real, hash2: (int, int) -> real, x: int, z: int)
    requires Sized(g) && IsUnitHash(hash)
    requires 2 <= x < Grid - 2 && 2 <= z < Grid - 2
    modifies g
    ensures forall a, b :: 0 <= a < Grid && 0 <= b < Grid ==>
      g[a, b] == (if old(g[x, z]) == 1 && hash2(x, z) <= TunnelChance &&
                     old(TunnelFits(g, x, z, TunnelPlan(hash, x, z).0, TunnelPlan(hash, x, z).1)) &&
                     OnTunnel(x, z, TunnelPlan(hash, x, z).0, TunnelPlan(hash, x, z).1, (a, b))
                  then 1 else old(g[a, b]))
    ensures forall a, b :: 0 <= a < Grid && 0 <= b < Grid && g[a, b] != old(g[a, b]) ==>
      1 <= a <= Grid - 2 && 1 <= b <= Grid - 2 && TunnelFrom(hash, hash2, x, z, (a, b)) && g[x, z] == 1
  {
    if g[x, z] == 1 && hash2(x, z) <= TunnelChance {
      var plan := TunnelPlan(hash, x, z);
      ghost var fits := TunnelFits(g, x, z, plan.0, plan.1);
      forall a, b | 0 <= a < Grid && 0 <= b < Grid && fits && OnTunnel(x, z, plan.0, plan.1, (a, b))
        ensures 1 <= a <= Grid - 2 && 1 <= b <= Grid - 2
      {
        TunnelInside(g, x, z, plan.0, plan.1, (a, b));
      }
      var _ := TryTunnel(g, x, z, plan.0, plan.1);
    }
  }

  /** The facts the tunnel pass keeps: open cells stay open, and every
      opened cell lies inside `[1, GRID - 2]` on a tunnel of an open origin. */
  ghost predicate TunnelsSoFar(g: array2<int>, g0: seq<seq<int>>, hash: (int, int) -> real, hash2: (int, int) -> real)
    requires Sized(g) && IsUnitHash(hash)
    requires |g0| == Grid && forall a :: 0 <= a < Grid ==> |g0[a]| == Grid
    reads g
  {
    forall a, b :: 0 <= a < Grid && 0 <= b < Grid ==>
      (g[a, b] == g0[a][b] || g[a, b] == 1) &&
      (g[a, b] != g0[a][b] ==> 1 <= a <= Grid - 2 && 1 <= b <= Grid - 2 && Spawned(g, hash, hash2, (a, b)))
  }

  /** The tunnel pass over `[2, GRID - 3]` on both axes: from every cell
      that is open when visited and whose second hash is at most 0.04, one
      tunnel attempt. Open cells stay open, only solid cells are opened,
      only inside `[1, GRID - 2]`, and each opened cell lies on the planned
      tunnel of some open origin in the scanned band that passes the gate. */
  method CarveTunnels(g: array2<int>, hash: (int, int) -> real, hash2: (int, int) -> real)
    requires Sized(g) && IsUnitHash(hash)
    modifies g
    ensures forall a, b :: 0 <= a < Grid && 0 <= b < Grid ==>
      (g[a, b] == old(g[a, b]) || g[a, b] == 1) &&
      (g[a, b] != old(g[a, b]) ==> 1 <= a <= Grid - 2 && 1 <= b <= Grid - 2 && Spawned(g, hash, hash2, (a, b)))
  {
    ghost var g0 := Snapshot(g);
    var x := 2;
    while x < Grid - 2
      invariant 2 <= x <= Grid - 2
      invariant TunnelsSoFar(g, g0, hash, hash2)
    {
      var z := 2;
      while z < Grid - 2
        invariant 2 <= z <= Grid - 2
        invariant TunnelsSoFar(g, g0, hash, hash2)
      {
        TunnelStep(g, g0, hash, hash2, x, z);
        z := z + 1;
      }
      x := x + 1;
    }
  }

  /** The rows of `g` as sequences, to remember the grid before the pass. */
  ghost function Snapshot(g: array2<int>): (m: seq<seq<int>>)
    requires Sized(g)
    reads g
    ensures |m| == Grid && forall a :: 0 <= a < Grid ==> |m[a]| == Grid
    ensures forall a, b :: 0 <= a < Grid && 0 <= b < Grid ==> m[a][b] == g[a, b]
  {
    seq(Grid, a requires 0 <= a < Grid reads g => seq(Grid, b requires 0 <= b < Grid reads g => g[a, b]))
  }

  /** One visit of the pass keeps `TunnelsSoFar`: a cell opened now lies on
      this origin's tunnel, one opened earlier keeps its origin, which is
      still open. */
  method TunnelStep(g: array2<int>, ghost g0: seq<seq<int>>, hash: (int, int) -> real, hash2: (int, int) -> real, x: int, z: int)
    requires Sized(g) && IsUnitHash(hash)
    requires |g0| == Grid && forall a :: 0 <= a < Grid ==> |g0[a]| == Grid
    requires 2 <= x < Grid - 2 && 2 <= z < Grid - 2
    requires TunnelsSoFar(g, g0, hash, hash2)
    modifies g
    ensures TunnelsSoFar(g, g0, hash, hash2)
  {
    label before:
    TunnelAt(g, hash, hash2, x, z);
    forall a, b | 0 <= a < Grid && 0 <= b < Grid && g[a, b] != g0[a][b]
      ensures Spawned(g, hash, hash2, (a, b))
    {
      if g[a, b] != old@before(g[a, b]) {
        assert TunnelFrom(hash, hash2, x, z, (a, b)) && g[x, z] == 1;
      } else {
        assert old@before(Spawned(g, hash, hash2, (a, b)));
        var x', z' :| TunnelFrom(hash, hash2, x', z', (a, b)) && old@before(g[x', z']) == 1;
        assert g[x', z'] == 1;
      }
    }
  }

  /** Half a grid, minus half a cell, in world units: `GRID * CS / 2 - CS / 2`. */
  const Off := (Grid as real * CS) / 2.0 - CS / 2.0

  /** World coordinate of cell index `i` under origin shift `o`. */
  function World(i: int, o: real): real
  {
    i as real * CS - Off + o
  }

  /** The origin shift that puts the middle of room `r`'s x extent at world
      coordinate 4.5 (`oX`); `ShiftZ` likewise for z. */
  function ShiftX(r: Room): (o: real)
    ensures (r.x as real + (r.w as real - 1.0) / 2.0) * CS - Off + o == 4.5
  {
    4.5 - ((r.x as real + (r.w as real - 1.0) / 2.0) * CS - Off)
  }

  function ShiftZ(r: Room): (o: real)
    ensures (r.z as real + (r.h as real - 1.0) / 2.0) * CS - Off + o == 4.5
  {
    4.5 - ((r.z as real + (r.h as real - 1.0) / 2.0) * CS - Off)
  }

  /** For the start room the offset is 88.5, both shifts are 3, and the
      room's middle cell (30, 30) sits at world (4.5, 4.5). */
  lemma StartRoomOffsets()
    ensures Off == 88.5
    ensures ShiftX(StartRoom) == 3.0 && ShiftZ(StartRoom) == 3.0
    ensures World(30, ShiftX(StartRoom)) == 4.5 && World(30, ShiftZ(StartRoom)) == 4.5
  {
  }

  /** Everything the chunks need from the generator. */
  datatype GridInfo = GridInfo(g: array2<int>, roomMap: array2<int>, roomTypes: seq<int>, oX: real, oZ: real, off: real)

  /** Every cell of room `ri` is on the grid, open, and owned by `ri`. */
  ghost predicate RoomsCarved(g: array2<int>, roomMap: array2<int>, rooms: seq<Room>)
    requires Sized(g) && Sized(roomMap)
    reads g, roomMap
  {
    forall ri, x, z :: 0 <= ri < |rooms| && InRoom(rooms[ri], x, z) ==> RoomCellCarved(g, roomMap, ri, x, z)
  }

  ghost predicate RoomCellCarved(g: array2<int>, roomMap: array2<int>, ri: int, x: int, z: int)
    requires Sized(g) && Sized(roomMap)
    reads g, roomMap
  {
    0 <= x < Grid && 0 <= z < Grid && g[x, z] == 1 && roomMap[x, z] == ri
  }

  /** Every cell on the corridor between consecutive room centres is open. */
  ghost predicate CorridorsOpen(g: array2<int>, rooms: seq<Room>)
    requires Sized(g)
    reads g
  {
    forall i, x, z ::
      (1 <= i < |rooms| && 0 <= x < Grid && 0 <= z < Grid && OnCorridor(Centre(rooms[i - 1]), Centre(rooms[i]), (x, z)))
      ==> g[x, z] == 1
  }

  /** The shape of a generated grid: cells are 0 or 1, `roomMap` names each
      cell's owning room, owned cells are open, the outer ring is solid, and
      the corridors are open. */
  ghost predicate Carved(g: array2<int>, roomMap: array2<int>, rooms: seq<Room>)
    requires Sized(g) && Sized(roomMap)
    reads g, roomMap
  {
    && (forall x, z :: 0 <= x < Grid && 0 <= z < Grid ==> CellCarved(g, roomMap, rooms, x, z))
    && CorridorsOpen(g, rooms)
  }

  /** One cell of a generated grid: 0 or 1, owned by its `roomMap` room,
      open when owned, solid on the outer ring. */
  ghost predicate CellCarved(g: array2<int>, roomMap: array2<int>, rooms: seq<Room>, x: int, z: int)
    requires Sized(g) && Sized(roomMap) && 0 <= x < Grid && 0 <= z < Grid
    reads g, roomMap
  {
    && (g[x, z] == 0 || g[x, z] == 1)
    && roomMap[x, z] == Owner(rooms, x, z)
    && (roomMap[x, z] >= 0 ==> g[x, z] == 1)
    && (x == 0 || x == Grid - 1 || z == 0 || z == Grid - 1 ==> g[x, z] == 0)
  }

  /** With separated rooms in the band, a carved grid has every room carved. */
  lemma CarvedRooms(g: array2<int>, roomMap: array2<int>, rooms: seq<Room>)
    requires Sized(g) && Sized(roomMap) && g != roomMap && Carved(g, roomMap, rooms)
    requires PairwiseSeparated(rooms) && AllInBand(rooms)
    ensures RoomsCarved(g, roomMap, rooms)
  {
    forall ri, x, z | 0 <= ri < |rooms| && InRoom(rooms[ri], x, z)
      ensures RoomCellCarved(g, roomMap, ri, x, z)
    {
      CarvedRoomCell(g, roomMap, rooms, ri, x, z);
    }
  }

  lemma CarvedRoomCell(g: array2<int>, roomMap: array2<int>, rooms: seq<Room>, ri: int, x: int, z: int)
    requires Sized(g) && Sized(roomMap)
    requires forall x, z :: 0 <= x < Grid && 0 <= z < Grid ==> CellCarved(g, roomMap, rooms, x, z)
    requires PairwiseSeparated(rooms) && AllInBand(rooms)
    requires 0 <= ri < |rooms| && InRoom(rooms[ri], x, z)
    ensures 0 <= x < Grid && 0 <= z < Grid && g[x, z] == 1 && roomMap[x, z] == ri
  {
    assert InBand(rooms[ri]);
    OwnerOfRoomCell(rooms, ri, x, z);
    assert CellCarved(g, roomMap, rooms, x, z);
  }

  /** Rooms, then corridors, into fresh arrays. */
  method CarveRoomsAndCorridors(g: array2<int>, roomMap: array2<int>, rooms: seq<Room>)
    requires Sized(g) && Sized(roomMap) && g != roomMap
    requires AllInBand(rooms)
    requires forall x, z :: 0 <= x < Grid && 0 <= z < Grid ==> g[x, z] == 0 && roomMap[x, z] == -1
    modifies g, roomMap
    ensures Carved(g, roomMap, rooms)
    ensures forall x, z :: 0 <= x < Grid && 0 <= z < Grid ==>
      g[x, z] == (if Owner(rooms, x, z) >= 0 || OnSomeCorridor(rooms, (x, z)) then 1 else 0)
  {
    CarveRooms(g, roomMap, rooms);
    label carved:
    CarveCorridors(g, rooms);
    forall x, z | 0 <= x < Grid && 0 <= z < Grid
      ensures CellCarved(g, roomMap, rooms, x, z)
    {
      var o := Owner(rooms, x, z);
      assert old@carved(g[x, z]) == (if o >= 0 then 1 else 0);
      if o >= 0 {
        assert InBand(rooms[o]);
      }
    }
    forall i, x, z | 1 <= i < |rooms| && 0 <= x < Grid && 0 <= z < Grid && OnCorridor(Centre(rooms[i - 1]), Centre(rooms[i]), (x, z))
      ensures g[x, z] == 1
    {
      assert CorridorBefore(rooms, |rooms|, (x, z));
    }
    assert CorridorsOpen(g, rooms);
  }

  /** The tunnel pass keeps the shape of the carved grid. */
  method AddTunnels(g: array2<int>, roomMap: array2<int>, rooms: seq<Room>, hash: (int, int) -> real, hash2: (int, int) -> real)
    requires Sized(g) && Sized(roomMap) && g != roomMap && IsUnitHash(hash)
    requires Carved(g, roomMap, rooms)
    modifies g
    ensures Carved(g, roomMap, rooms)
    ensures forall x, z :: 0 <= x < Grid && 0 <= z < Grid ==>
      (g[x, z] == old(g[x, z]) || g[x, z] == 1) &&
      (g[x, z] != old(g[x, z]) ==> Spawned(g, hash, hash2, (x, z)))
  {
    label joined:
    CarveTunnels(g, hash, hash2);
    forall x, z | 0 <= x < Grid && 0 <= z < Grid
      ensures CellCarved(g, roomMap, rooms, x, z)
    {
      assert old@joined(CellCarved(g, roomMap, rooms, x, z));
    }
    forall i, x, z | 1 <= i < |rooms| && 0 <= x < Grid && 0 <= z < Grid && OnCorridor(Centre(rooms[i - 1]), Centre(rooms[i]), (x, z))
      ensures g[x, z] == 1
    {
      assert old@joined(g[x, z]) == 1;
    }
  }

  /** An open cell of the generated grid is a room cell, a corridor cell,
      or lies on the planned tunnel of an open origin that passes the gate. */
  ghost predicate OpenedByGenerator(g: array2<int>, rooms: seq<Room>, hash: (int, int) -> real, hash2: (int, int) -> real, x: int, z: int)
    requires Sized(g) && IsUnitHash(hash) && 0 <= x < Grid && 0 <= z < Grid
    reads g
  {
    g[x, z] == 1 ==> Owner(rooms, x, z) >= 0 || OnSomeCorridor(rooms, (x, z)) || Spawned(g, hash, hash2, (x, z))
  }

  /** The whole of `gridInfo`. */
  method GenerateGrid(rand: nat -> real, k0: nat, roomHash: (int, int) -> real,
                      hash: (int, int) -> real, hash2: (int, int) -> real)
    returns (info: GridInfo, rooms: seq<Room>, k: nat, tries: nat)
    requires IsRandomSource(rand) && IsUnitHash(roomHash) && IsUnitHash(hash)
    ensures fresh(info.g) && fresh(info.roomMap) && info.g != info.roomMap
    ensures Sized(info.g) && Sized(info.roomMap)
    ensures 1 <= |rooms| <= MaxRooms && rooms[0] == StartRoom
    ensures AllInBand(rooms) && PairwiseSeparated(rooms)
    ensures forall i :: 1 <= i < |rooms| ==> RandomShape(rooms[i])
    ensures tries <= MaxTries && rooms == Placed(rand, k0, tries) && k == k0 + 4 * tries
    ensures info.roomTypes == RoomTypes(rooms, roomHash)
    ensures info.off == 88.5 && info.oX == 3.0 && info.oZ == 3.0
    ensures Carved(info.g, info.roomMap, rooms)
    ensures RoomsCarved(info.g, info.roomMap, rooms)
    ensures forall x, z :: 0 <= x < Grid && 0 <= z < Grid ==> OpenedByGenerator(info.g, rooms, hash, hash2, x, z)
  {
    var g := new int[Grid, Grid]((i, j) => 0);
    var roomMap := new int[Grid, Grid]((i, j) => -1);
    rooms, k, tries := PlaceRooms(rand, k0);
    var roomTypes := RoomTypes(rooms, roomHash);
    CarveRoomsAndCorridors(g, roomMap, rooms);
    label joined:
    AddTunnels(g, roomMap, rooms, hash, hash2);
    forall x, z | 0 <= x < Grid && 0 <= z < Grid
      ensures OpenedByGenerator(g, rooms, hash, hash2, x, z)
    {
      assert old@joined(g[x, z]) == (if Owner(rooms, x, z) >= 0 || OnSomeCorridor(rooms, (x, z)) then 1 else 0);
    }
    CarvedRooms(g, roomMap, rooms);
    var sr := rooms[0];
    StartRoomOffsets();
    info := GridInfo(g, roomMap, roomTypes, ShiftX(sr), ShiftZ(sr), Off);
  }
}
