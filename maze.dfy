/** The level 0 maze generator: a recursive backtracker with an explicit
    stack over an odd-sized wall grid, followed by a braiding pass that opens
    walls between floor cells. The grid is `grid[y, x]`: rows are indexed by
    y (`Length0` is the height) and columns by x. `Math.random()` is the
    stream `rand`, consumed from index 0 in call order. */
module MazeGeneration {
  import opened Geometry

  datatype Cell = Wall | Floor

  /** A cell as `(x, y)`. */
  type Pos = (int, int)

  const Start: Pos := (1, 1)

  /** Even dimensions are bumped to the next odd number. */
  function ActualSize(n: nat): (r: nat)
    ensures r % 2 == 1
    ensures n <= r <= n + 1
  {
    if n % 2 == 0 then n + 1 else n
  }

  /** The bump keeps odd sizes and is the least odd size not below n. */
  lemma ActualSizeLeastOdd(n: nat, o: nat)
    requires o % 2 == 1 && n <= o
    ensures ActualSize(n) <= o
    ensures n % 2 == 1 ==> ActualSize(n) == n
    ensures ActualSize(ActualSize(n)) == ActualSize(n)
  {
  }

  // ----------------------------------------------------------- geometry

  predicate InGrid(grid: array2<Cell>, c: Pos)
  {
    0 <= c.0 < grid.Length1 && 0 <= c.1 < grid.Length0
  }

  /** Strictly inside the border ring. */
  predicate Interior(grid: array2<Cell>, c: Pos)
  {
    0 < c.0 < grid.Length1 - 1 && 0 < c.1 < grid.Length0 - 1
  }

  predicate IsFloor(grid: array2<Cell>, c: Pos)
    reads grid
  {
    InGrid(grid, c) && grid[c.1, c.0] == Floor
  }

  /** Odd dimensions of at least 3, as `generateMap` creates them. */
  predicate OddGrid(grid: array2<Cell>)
  {
    grid.Length0 >= 3 && grid.Length1 >= 3 && grid.Length0 % 2 == 1 && grid.Length1 % 2 == 1
  }

  /** Every cell outside the interior is a wall. */
  ghost predicate RingIsWall(grid: array2<Cell>)
    reads grid
  {
    forall y, x :: 0 <= y < grid.Length0 && 0 <= x < grid.Length1 && !Interior(grid, (x, y)) ==> grid[y, x] == Wall
  }

  function Up(c: Pos): Pos { (c.0, c.1 - 1) }
  function Down(c: Pos): Pos { (c.0, c.1 + 1) }
  function Left(c: Pos): Pos { (c.0 - 1, c.1) }
  function Right(c: Pos): Pos { (c.0 + 1, c.1) }

  predicate Adjacent(a: Pos, b: Pos)
  {
    b == Up(a) || b == Down(a) || b == Left(a) || b == Right(a)
  }

  /** The carving directions, in the order they are tried: up, down, left, right. */
  const Directions: seq<(int, int)> := [(0, -2), (0, 2), (-2, 0), (2, 0)]

  predicate TwoStepsAway(c: Pos, n: Pos)
  {
    (n.0 == c.0 && (n.1 == c.1 - 2 || n.1 == c.1 + 2)) || (n.1 == c.1 && (n.0 == c.0 - 2 || n.0 == c.0 + 2))
  }

  /** The position in `Directions` of the step from c to n. */
  function DirIndex(c: Pos, n: Pos): nat
  {
    if n == (c.0, c.1 - 2) then 0
    else if n == (c.0, c.1 + 2) then 1
    else if n == (c.0 - 2, c.1) then 2
    else 3
  }

  /** A cell the backtracker may carve into from c. */
  predicate Candidate(grid: array2<Cell>, c: Pos, n: Pos)
    reads grid
  {
    TwoStepsAway(c, n) && Interior(grid, n) && grid[n.1, n.0] == Wall
  }

  /** `getNeighbors`: the interior wall cells two steps away, in direction order. */
  method GetNeighbors(grid: array2<Cell>, c: Pos) returns (r: seq<Pos>)
    ensures forall n :: n in r <==> Candidate(grid, c, n)
    ensures forall i, j :: 0 <= i < j < |r| ==> DirIndex(c, r[i]) < DirIndex(c, r[j])
    ensures |r| <= 4
  {
    r := [];
    for d := 0 to 4
      invariant forall n :: n in r <==> Candidate(grid, c, n) && DirIndex(c, n) < d
      invariant forall i, j :: 0 <= i < j < |r| ==> DirIndex(c, r[i]) < DirIndex(c, r[j])
      invariant forall i :: 0 <= i < |r| ==> DirIndex(c, r[i]) < d
      invariant |r| <= d
    {
      var nx := c.0 + Directions[d].0;
      var ny := c.1 + Directions[d].1;
      assert DirIndex(c, (nx, ny)) == d;
      if nx > 0 && nx < grid.Length1 - 1 && ny > 0 && ny < grid.Length0 - 1 && grid[ny, nx] == Wall {
        r := r + [(nx, ny)];
      }
    }
  }

  // ---------------------------------------------------- connectivity

  /** n is a neighbour of c with a smaller distance label. */
  ghost predicate LowerAt(dist: map<Pos, nat>, c: Pos, n: Pos)
    requires c in dist
  {
    n in dist && dist[n] < dist[c]
  }

  ghost predicate HasLowerNeighbour(dist: map<Pos, nat>, c: Pos)
    requires c in dist
  {
    LowerAt(dist, c, Up(c)) || LowerAt(dist, c, Down(c)) || LowerAt(dist, c, Left(c)) || LowerAt(dist, c, Right(c))
  }

  /** A connectivity certificate: `dist` labels exactly the floor cells, the
      start among them, and every other floor cell has a floor neighbour
      with a smaller label. */
  ghost predicate Rooted(grid: array2<Cell>, dist: map<Pos, nat>)
    reads grid
  {
    Labelled(grid, dist) && Descending(dist)
  }

  /** `dist` labels exactly the floor cells. */
  ghost predicate Labelled(grid: array2<Cell>, dist: map<Pos, nat>)
    reads grid
  {
    && (forall c :: c in dist ==> InGrid(grid, c))
    && (forall c :: InGrid(grid, c) ==> (c in dist <==> grid[c.1, c.0] == Floor))
  }

  /** The start is labelled and every other label has a smaller neighbour. */
  ghost predicate Descending(dist: map<Pos, nat>)
  {
    Start in dist && forall c {:trigger HasLowerNeighbour(dist, c)} :: c in dist && c != Start ==> HasLowerNeighbour(dist, c)
  }

  /** A 4-connected walk over floor cells. */
  ghost predicate IsPath(grid: array2<Cell>, p: seq<Pos>)
    reads grid
  {
    && |p| > 0
    && (forall i :: 0 <= i < |p| ==> IsFloor(grid, p[i]))
    && (forall i :: 0 <= i < |p| - 1 ==> Adjacent(p[i], p[i + 1]))
  }

  ghost predicate Reachable(grid: array2<Cell>, c: Pos)
    reads grid
  {
    exists p :: IsPath(grid, p) && p[0] == Start && p[|p| - 1] == c
  }

  ghost function LowerNeighbour(dist: map<Pos, nat>, c: Pos): (n: Pos)
    requires c in dist && HasLowerNeighbour(dist, c)
    ensures n in dist && dist[n] < dist[c] && Adjacent(c, n) && LowerAt(dist, c, n)
  {
    if LowerAt(dist, c, Up(c)) then Up(c)
    else if LowerAt(dist, c, Down(c)) then Down(c)
    else if LowerAt(dist, c, Left(c)) then Left(c)
    else Right(c)
  }

  /** Following smaller labels from any floor cell leads back to the start: a
      floor path from the start to every labelled cell. */
  lemma {:induction false} PathFromStart(grid: array2<Cell>, dist: map<Pos, nat>, c: Pos) returns (p: seq<Pos>)
    requires Rooted(grid, dist)
    requires c in dist
    ensures IsPath(grid, p) && p[0] == Start && p[|p| - 1] == c
    decreases dist[c]
  {
    if c == Start {
      p := [c];
    } else {
      var b := LowerNeighbour(dist, c);
      var q := PathFromStart(grid, dist, b);
      p := Extended(grid, q, c);
    }
  }

  /** A path extended by one adjacent floor cell is a path. */
  lemma Extended(grid: array2<Cell>, q: seq<Pos>, c: Pos) returns (p: seq<Pos>)
    requires IsPath(grid, q) && IsFloor(grid, c) && Adjacent(c, q[|q| - 1])
    ensures p == q + [c]
    ensures IsPath(grid, p) && p[0] == q[0] && p[|p| - 1] == c
  {
    p := q + [c];
    forall i | 0 <= i < |p| - 1
      ensures Adjacent(p[i], p[i + 1])
    {
      if i < |q| - 1 {
        assert p[i] == q[i] && p[i + 1] == q[i + 1];
      } else {
        assert p[i] == q[|q| - 1] && p[i + 1] == c;
      }
    }
  }

  /** Every floor cell of a certified grid is reachable from the start. */
  lemma AllFloorReachable(grid: array2<Cell>, dist: map<Pos, nat>)
    requires Rooted(grid, dist)
    ensures forall y, x :: 0 <= y < grid.Length0 && 0 <= x < grid.Length1 && grid[y, x] == Floor ==> Reachable(grid, (x, y))
  {
    forall y, x | 0 <= y < grid.Length0 && 0 <= x < grid.Length1 && grid[y, x] == Floor
      ensures Reachable(grid, (x, y))
    {
      var p := PathFromStart(grid, dist, (x, y));
    }
  }

  // --------------------------------------------------------- backtracker

  ghost function AllCells(grid: array2<Cell>): (all: set<Pos>)
    ensures forall c :: InGrid(grid, c) ==> c in all
  {
    set x, y | 0 <= x < grid.Length1 && 0 <= y < grid.Length0 :: (x, y)
  }

  predicate Odd(c: Pos)
  {
    c.0 % 2 == 1 && c.1 % 2 == 1
  }

  /** Every interior cell two steps away from c is floor. */
  ghost predicate Closed(grid: array2<Cell>, c: Pos)
    reads grid
  {
    forall n :: TwoStepsAway(c, n) && Interior(grid, n) ==> grid[n.1, n.0] == Floor
  }

  ghost predicate AllWalls(grid: array2<Cell>)
    reads grid
  {
    forall y, x :: 0 <= y < grid.Length0 && 0 <= x < grid.Length1 ==> grid[y, x] == Wall
  }

  /** The bookkeeping the backtracker keeps on its stack. */
  ghost predicate StackInv(grid: array2<Cell>, stack: seq<Pos>)
    reads grid
  {
    && (forall i :: 0 <= i < |stack| ==> Odd(stack[i]) && Interior(grid, stack[i]) && grid[stack[i].1, stack[i].0] == Floor)
    && (forall i, j :: 0 <= i < j < |stack| ==> stack[i] != stack[j])
  }

  /** Floor lies inside the ring and never on a cell with two even coordinates. */
  ghost predicate CarvedShape(grid: array2<Cell>)
    reads grid
  {
    forall y, x :: 0 <= y < grid.Length0 && 0 <= x < grid.Length1 && grid[y, x] == Floor ==>
      Interior(grid, (x, y)) && (x % 2 == 1 || y % 2 == 1)
  }

  /** A popped odd cell has no wall left to carve into. */
  ghost predicate Finished(grid: array2<Cell>, stack: seq<Pos>)
    reads grid
  {
    forall y, x {:trigger Closed(grid, (x, y))} ::
      0 <= y < grid.Length0 && 0 <= x < grid.Length1 && Odd((x, y)) && grid[y, x] == Floor && (x, y) !in stack ==>
      Closed(grid, (x, y))
  }

  ghost predicate AllOddCarved(grid: array2<Cell>)
    reads grid
  {
    forall y, x :: Interior(grid, (x, y)) && Odd((x, y)) ==> grid[y, x] == Floor
  }

  /** With the start carved and every odd floor cell closed, all odd interior
      cells are carved (induction on x + y from the start). */
  lemma {:induction false} ClosedMeansAllCarved(grid: array2<Cell>)
    requires OddGrid(grid)
    requires grid[1, 1] == Floor
    requires Finished(grid, [])
    ensures AllOddCarved(grid)
  {
    forall y, x | Interior(grid, (x, y)) && Odd((x, y))
      ensures grid[y, x] == Floor
    {
      OddCellCarved(grid, x, y);
    }
  }

  lemma {:induction false} OddCellCarved(grid: array2<Cell>, x: int, y: int)
    requires OddGrid(grid)
    requires grid[1, 1] == Floor
    requires Finished(grid, [])
    requires Interior(grid, (x, y)) && Odd((x, y))
    ensures grid[y, x] == Floor
    decreases x + y
  {
    if x > 1 {
      OddCellCarved(grid, x - 2, y);
      assert Closed(grid, (x - 2, y));
    } else if y > 1 {
      OddCellCarved(grid, x, y - 2);
      assert Closed(grid, (x, y - 2));
    }
  }

  /** The depth-first carve of `generateMap`, from an all-wall grid; returns
      the next unused index of `rand`. */
  method Backtrack(grid: array2<Cell>, rand: nat -> real, k0: nat) returns (k: nat, ghost dist: map<Pos, nat>)
    requires OddGrid(grid) && AllWalls(grid)
    requires IsRandomSource(rand)
    modifies grid
    ensures k >= k0
    ensures grid[1, 1] == Floor
    ensures RingIsWall(grid)
    ensures CarvedShape(grid)
    ensures AllOddCarved(grid)
    ensures Rooted(grid, dist)
  {
    grid[1, 1] := Floor;
    var stack: seq<Pos> := [Start];
    dist := map[Start := 0];
    k := k0;
    while |stack| > 0
      invariant k >= k0
      invariant Carving(grid, stack, dist)
      decreases AllCells(grid) - dist.Keys, |stack|
    {
      k, stack, dist := CarveStep(grid, rand, k, stack, dist);
    }
    RingFromShape(grid);
    ClosedMeansAllCarved(grid);
  }

  /** The backtracker's loop invariant. */
  ghost predicate Carving(grid: array2<Cell>, stack: seq<Pos>, dist: map<Pos, nat>)
    reads grid
  {
    && OddGrid(grid) && grid[1, 1] == Floor
    && CarvedShape(grid) && StackInv(grid, stack) && Finished(grid, stack) && Rooted(grid, dist)
  }

  /** One iteration of the backtracker: carve towards a random wall
      neighbour two steps away and push it, or pop a cell that has none. */
  method CarveStep(grid: array2<Cell>, rand: nat -> real, k: nat, stack: seq<Pos>, ghost dist: map<Pos, nat>)
    returns (k': nat, stack': seq<Pos>, ghost dist': map<Pos, nat>)
    requires IsRandomSource(rand) && |stack| > 0 && Carving(grid, stack, dist)
    modifies grid
    ensures k' >= k && Carving(grid, stack', dist')
    ensures AllCells(grid) - dist'.Keys < AllCells(grid) - dist.Keys ||
      (dist'.Keys == dist.Keys && |stack'| < |stack|)
  {
    var cur := stack[|stack| - 1];
    var neighbors := GetNeighbors(grid, cur);
    if |neighbors| > 0 {
      var next := neighbors[ScaledFloor(rand(k), |neighbors|)];
      k' := k + 1;
      assert Candidate(grid, cur, next);
      stack', dist' := CarveToward(grid, stack, dist, next);
    } else {
      NoCandidateClosed(grid, cur, neighbors);
      PopKeeps(grid, stack);
      k', stack', dist' := k, stack[..|stack| - 1], dist;
    }
  }

  /** The push branch: open the wall between the top cell and `next`, and
      push `next`. */
  method CarveToward(grid: array2<Cell>, stack: seq<Pos>, ghost dist: map<Pos, nat>, next: Pos)
    returns (stack': seq<Pos>, ghost dist': map<Pos, nat>)
    requires |stack| > 0 && Carving(grid, stack, dist) && Candidate(grid, stack[|stack| - 1], next)
    modifies grid
    ensures Carving(grid, stack', dist')
    ensures AllCells(grid) - dist'.Keys < AllCells(grid) - dist.Keys
  {
    var cur := stack[|stack| - 1];
    var mid := ((cur.0 + next.0) / 2, (cur.1 + next.1) / 2);
    StepGeometry(grid, cur, next);
    assert next !in dist;
    assert cur in dist;
    assert InGrid(grid, next);
    ghost var all := AllCells(grid);
    Push(grid, stack, dist, cur, mid, next);
    dist' := Extend(dist, cur, mid, next);
    stack' := stack + [next];
    Shrinks(all, dist.Keys, dist'.Keys, next);
    assert grid[1, 1] == Floor;
  }

  /** Labelling one more cell of the grid shrinks the unlabelled part. */
  lemma Shrinks(all: set<Pos>, keys: set<Pos>, keys': set<Pos>, next: Pos)
    requires keys <= keys' && next in all && next in keys' && next !in keys
    ensures all - keys' < all - keys
  {
    assert next in all - keys;
  }

  /** With no candidate left, a cell is closed. */
  lemma NoCandidateClosed(grid: array2<Cell>, cur: Pos, neighbors: seq<Pos>)
    requires forall n :: n in neighbors <==> Candidate(grid, cur, n)
    requires |neighbors| == 0
    ensures Closed(grid, cur)
  {
    forall n | TwoStepsAway(cur, n) && Interior(grid, n)
      ensures grid[n.1, n.0] == Floor
    {
      assert n !in neighbors;
    }
  }

  function Midpoint(a: Pos, b: Pos): Pos
  {
    ((a.0 + b.0) / 2, (a.1 + b.1) / 2)
  }

  /** From an odd interior cell, a two-step neighbour is odd and the cell
      between them is an interior neighbour of both, with one even coordinate. */
  lemma StepGeometry(grid: array2<Cell>, cur: Pos, next: Pos)
    requires Odd(cur) && Interior(grid, cur) && Interior(grid, next) && TwoStepsAway(cur, next)
    ensures Odd(next)
    ensures var mid := Midpoint(cur, next);
      Adjacent(cur, mid) && Adjacent(mid, next) && Interior(grid, mid) && !Odd(mid) && (mid.0 % 2 == 1 || mid.1 % 2 == 1)
  {
  }

  /** Only the cells a and b may differ from the old state, and they are floor. */
  twostate predicate OpenedOnly(grid: array2<Cell>, a: Pos, b: Pos)
    reads grid
  {
    forall y, x :: 0 <= y < grid.Length0 && 0 <= x < grid.Length1 ==>
      grid[y, x] == (if (x, y) == a || (x, y) == b then Floor else old(grid[y, x]))
  }

  /** The two writes of one push: the wall between, then the new cell. */
  method OpenTwo(grid: array2<Cell>, mid: Pos, next: Pos)
    requires InGrid(grid, mid) && InGrid(grid, next)
    modifies grid
    ensures OpenedOnly(grid, mid, next)
  {
    grid[mid.1, mid.0] := Floor;
    grid[next.1, next.0] := Floor;
  }

  /** One push: carve the wall between and the new cell, keeping every
      invariant of the backtracker. */
  method Push(grid: array2<Cell>, stack: seq<Pos>, ghost dist: map<Pos, nat>, cur: Pos, mid: Pos, next: Pos)
    requires CarvedShape(grid) && StackInv(grid, stack) && Finished(grid, stack) && Rooted(grid, dist)
    requires cur in dist && next !in dist && Adjacent(cur, mid) && Adjacent(mid, next)
    requires Interior(grid, mid) && (mid.0 % 2 == 1 || mid.1 % 2 == 1) && !Odd(mid)
    requires Interior(grid, next) && Odd(next) && grid[next.1, next.0] == Wall
    modifies grid
    ensures OpenedOnly(grid, mid, next)
    ensures CarvedShape(grid) && StackInv(grid, stack + [next]) && Finished(grid, stack + [next])
    ensures Rooted(grid, Extend(dist, cur, mid, next))
  {
    OpenTwo(grid, mid, next);
    PushKeeps(PushStep(grid, stack, dist, cur, mid, next));
  }

  /** The arguments of one push, for the lemmas relating the grid before and
      after it. */
  datatype PushStep = PushStep(grid: array2<Cell>, stack: seq<Pos>, dist: map<Pos, nat>, cur: Pos, mid: Pos, next: Pos)

  twostate lemma PushKeeps(p: PushStep)
    requires old(CarvedShape(p.grid) && StackInv(p.grid, p.stack) && Finished(p.grid, p.stack) && Rooted(p.grid, p.dist))
    requires OpenedOnly(p.grid, p.mid, p.next)
    requires p.cur in p.dist && p.next !in p.dist && Adjacent(p.cur, p.mid) && Adjacent(p.mid, p.next)
    requires Interior(p.grid, p.mid) && (p.mid.0 % 2 == 1 || p.mid.1 % 2 == 1) && !Odd(p.mid)
    requires Interior(p.grid, p.next) && Odd(p.next) && old(p.grid[p.next.1, p.next.0]) == Wall
    ensures CarvedShape(p.grid) && StackInv(p.grid, p.stack + [p.next]) && Finished(p.grid, p.stack + [p.next])
    ensures Rooted(p.grid, Extend(p.dist, p.cur, p.mid, p.next))
  {
    ShapeKept(p);
    StackKept(p);
    FinishedKept(p);
    RootedKept(p);
  }

  twostate lemma ShapeKept(p: PushStep)
    requires old(CarvedShape(p.grid)) && OpenedOnly(p.grid, p.mid, p.next)
    requires Interior(p.grid, p.mid) && (p.mid.0 % 2 == 1 || p.mid.1 % 2 == 1) && Interior(p.grid, p.next) && Odd(p.next)
    ensures CarvedShape(p.grid)
  {
  }

  twostate lemma StackKept(p: PushStep)
    requires old(StackInv(p.grid, p.stack)) && OpenedOnly(p.grid, p.mid, p.next)
    requires Odd(p.next) && Interior(p.grid, p.next) && old(p.grid[p.next.1, p.next.0]) == Wall
    ensures StackInv(p.grid, p.stack + [p.next])
  {
    var grid, stack := p.grid, p.stack;
    var s := stack + [p.next];
    forall i | 0 <= i < |s|
      ensures Odd(s[i]) && Interior(grid, s[i]) && grid[s[i].1, s[i].0] == Floor
    {
      if i < |stack| {
        assert s[i] == stack[i];
        assert old(grid[stack[i].1, stack[i].0]) == Floor;
      }
    }
    forall i, j | 0 <= i < j < |s|
      ensures s[i] != s[j]
    {
      if j < |stack| {
        assert s[i] == stack[i] && s[j] == stack[j];
      } else {
        assert s[i] == stack[i] && old(grid[stack[i].1, stack[i].0]) == Floor;
      }
    }
  }

  twostate lemma FinishedKept(p: PushStep)
    requires old(Finished(p.grid, p.stack)) && OpenedOnly(p.grid, p.mid, p.next) && !Odd(p.mid)
    ensures Finished(p.grid, p.stack + [p.next])
  {
    var grid := p.grid;
    forall y, x | 0 <= y < grid.Length0 && 0 <= x < grid.Length1 && Odd((x, y)) && grid[y, x] == Floor && (x, y) !in p.stack + [p.next]
      ensures Closed(grid, (x, y))
    {
      assert (x, y) != p.mid && (x, y) != p.next;
      assert old(grid[y, x]) == Floor && (x, y) !in p.stack;
      assert old(Closed(grid, (x, y)));
      forall n | TwoStepsAway((x, y), n) && Interior(grid, n)
        ensures grid[n.1, n.0] == Floor
      {
        assert old(grid[n.1, n.0]) == Floor;
      }
    }
  }

  twostate lemma RootedKept(p: PushStep)
    requires old(Rooted(p.grid, p.dist)) && OpenedOnly(p.grid, p.mid, p.next)
    requires p.cur in p.dist && p.next !in p.dist && p.next != p.mid
    requires Adjacent(p.cur, p.mid) && Adjacent(p.mid, p.next) && InGrid(p.grid, p.mid) && InGrid(p.grid, p.next)
    ensures Rooted(p.grid, Extend(p.dist, p.cur, p.mid, p.next))
  {
    var grid, dist, mid, next := p.grid, p.dist, p.mid, p.next;
    var nd := Extend(dist, p.cur, mid, next);
    forall c | c in nd
      ensures IsFloor(grid, c)
    {
      if c != mid && c != next {
        assert old(IsFloor(grid, c));
      }
    }
    forall y, x | 0 <= y < grid.Length0 && 0 <= x < grid.Length1 && grid[y, x] == Floor
      ensures (x, y) in nd
    {
      if (x, y) != mid && (x, y) != next {
        assert old(grid[y, x]) == Floor;
      }
    }
    ExtendDescends(dist, p.cur, mid, next);
  }

  /** Labelling mid after cur, and next after mid, keeps the labels descending. */
  lemma ExtendDescends(dist: map<Pos, nat>, cur: Pos, mid: Pos, next: Pos)
    requires Descending(dist)
    requires cur in dist && next !in dist && next != mid
    requires Adjacent(cur, mid) && Adjacent(mid, next)
    ensures Descending(Extend(dist, cur, mid, next))
  {
    var d := if mid in dist then dist else dist[mid := dist[cur] + 1];
    if mid !in dist {
      LabelKeepsDescending(dist, mid, cur);
    }
    assert Descending(d) && mid in d && next !in d;
    LabelKeepsDescending(d, next, mid);
    assert Extend(dist, cur, mid, next) == d[next := d[mid] + 1];
  }

  /** Labelling a new cell one more than a labelled neighbour keeps the certificate. */
  lemma LabelKeepsDescending(dist: map<Pos, nat>, c: Pos, n: Pos)
    requires Descending(dist) && c !in dist && n in dist && Adjacent(c, n)
    ensures Descending(dist[c := dist[n] + 1])
  {
    var nd := dist[c := dist[n] + 1];
    forall e | e in nd && e != Start
      ensures HasLowerNeighbour(nd, e)
    {
      if e == c {
        assert LowerAt(nd, c, n);
      } else {
        var b := LowerNeighbour(dist, e);
        assert LowerAt(nd, e, b);
      }
    }
  }


  /** Popping a closed cell keeps the stack bookkeeping. */
  lemma PopKeeps(grid: array2<Cell>, stack: seq<Pos>)
    requires StackInv(grid, stack) && Finished(grid, stack)
    requires |stack| > 0 && Closed(grid, stack[|stack| - 1])
    ensures StackInv(grid, stack[..|stack| - 1]) && Finished(grid, stack[..|stack| - 1])
  {
    var s := stack[..|stack| - 1];
    forall y, x | 0 <= y < grid.Length0 && 0 <= x < grid.Length1 && Odd((x, y)) && grid[y, x] == Floor && (x, y) !in s
      ensures Closed(grid, (x, y))
    {
      if (x, y) != stack[|stack| - 1] {
        assert (x, y) !in stack by {
          assert stack == s + [stack[|stack| - 1]];
        }
      }
    }
  }

  /** The labels after carving mid and next from cur. */
  ghost function Extend(dist: map<Pos, nat>, cur: Pos, mid: Pos, next: Pos): map<Pos, nat>
    requires cur in dist
  {
    var d := if mid in dist then dist else dist[mid := dist[cur] + 1];
    d[next := d[mid] + 1]
  }

  lemma RingFromShape(grid: array2<Cell>)
    requires CarvedShape(grid)
    ensures RingIsWall(grid)
  {
  }

  // ------------------------------------------------------------ braiding

  function Count(b: bool): nat { if b then 1 else 0 }

  /** How many of the four neighbours of an interior cell are floor. */
  function FloorNeighbours(grid: array2<Cell>, c: Pos): (n: nat)
    requires Interior(grid, c)
    reads grid
    ensures n <= 4
  {
    Count(grid[c.1 - 1, c.0] == Floor) + Count(grid[c.1 + 1, c.0] == Floor) +
    Count(grid[c.1, c.0 - 1] == Floor) + Count(grid[c.1, c.0 + 1] == Floor)
  }

  /** Number of braid attempts: the i with i < w * h * 0.1. */
  function BraidAttempts(cells: nat): (n: nat)
    ensures 10 * n >= cells && (n == 0 || 10 * (n - 1) < cells)
  {
    (cells + 9) / 10
  }

  /** The braiding pass: two draws per attempt pick an interior cell, which
      `Attempt` opens when it is a wall with at least two floor neighbours. */
  method Braid(grid: array2<Cell>, rand: nat -> real, k0: nat, ghost dist0: map<Pos, nat>)
    returns (k: nat, ghost dist: map<Pos, nat>)
    requires OddGrid(grid)
    requires RingIsWall(grid) && Rooted(grid, dist0)
    requires IsRandomSource(rand)
    modifies grid
    ensures k == k0 + 2 * BraidAttempts(grid.Length0 * grid.Length1)
    ensures forall y, x :: 0 <= y < grid.Length0 && 0 <= x < grid.Length1 && old(grid[y, x]) == Floor ==> grid[y, x] == Floor
    ensures forall y, x :: 0 <= y < grid.Length0 && 0 <= x < grid.Length1 && grid[y, x] != old(grid[y, x]) ==>
      Interior(grid, (x, y)) && old(grid[y, x]) == Wall
    ensures RingIsWall(grid)
    ensures Rooted(grid, dist)
  {
    var w, h := grid.Length1, grid.Length0;
    var cells := w * h;
    var i := 0;
    k, dist := k0, dist0;
    while 10 * i < cells
      invariant 10 * (i - 1) < cells
      invariant k == k0 + 2 * i
      invariant forall y, x :: 0 <= y < h && 0 <= x < w && old(grid[y, x]) == Floor ==> grid[y, x] == Floor
      invariant forall y, x :: 0 <= y < h && 0 <= x < w && grid[y, x] != old(grid[y, x]) ==>
        Interior(grid, (x, y)) && old(grid[y, x]) == Wall
      invariant RingIsWall(grid)
      invariant Rooted(grid, dist)
      decreases cells - 10 * i
    {
      var x := ScaledFloor(rand(k), w - 2) + 1;
      var y := ScaledFloor(rand(k + 1), h - 2) + 1;
      k := k + 2;
      dist := Attempt(grid, dist, (x, y));
      i := i + 1;
    }
    assert i == BraidAttempts(cells);
  }

  /** One braid attempt at an interior cell: a wall with at least two floor
      neighbours becomes floor, anything else is left as it is. */
  method Attempt(grid: array2<Cell>, ghost dist: map<Pos, nat>, c: Pos) returns (ghost nd: map<Pos, nat>)
    requires Interior(grid, c)
    requires RingIsWall(grid) && Rooted(grid, dist)
    modifies grid
    ensures old(grid[c.1, c.0]) == Wall && old(FloorNeighbours(grid, c)) >= 2 ==> OpenedOnly(grid, c, c)
    ensures !(old(grid[c.1, c.0]) == Wall && old(FloorNeighbours(grid, c)) >= 2) ==> unchanged(grid)
    ensures RingIsWall(grid) && Rooted(grid, nd)
  {
    nd := dist;
    if grid[c.1, c.0] == Wall {
      var connections := CountConnections(grid, c);
      if connections >= 2 {
        nd := OpenCell(grid, dist, c);
      }
    }
  }

  /** The four neighbour tests of the braiding pass. */
  method CountConnections(grid: array2<Cell>, c: Pos) returns (connections: nat)
    requires Interior(grid, c)
    ensures connections == FloorNeighbours(grid, c)
  {
    var x, y := c.0, c.1;
    connections := 0;
    if grid[y - 1, x] == Floor { connections := connections + 1; }
    if grid[y + 1, x] == Floor { connections := connections + 1; }
    if grid[y, x - 1] == Floor { connections := connections + 1; }
    if grid[y, x + 1] == Floor { connections := connections + 1; }
  }

  /** Opening one interior wall with a floor neighbour keeps the certificate. */
  method OpenCell(grid: array2<Cell>, ghost dist: map<Pos, nat>, c: Pos) returns (ghost nd: map<Pos, nat>)
    requires Interior(grid, c) && grid[c.1, c.0] == Wall && FloorNeighbours(grid, c) >= 2
    requires RingIsWall(grid) && Rooted(grid, dist)
    modifies grid
    ensures OpenedOnly(grid, c, c)
    ensures RingIsWall(grid) && Rooted(grid, nd)
  {
    ghost var f := if grid[c.1 - 1, c.0] == Floor then Up(c)
                   else if grid[c.1 + 1, c.0] == Floor then Down(c)
                   else if grid[c.1, c.0 - 1] == Floor then Left(c)
                   else Right(c);
    assert IsFloor(grid, f) && f in dist && Adjacent(c, f);
    assert c !in dist;
    grid[c.1, c.0] := Floor;
    nd := dist[c := dist[f] + 1];
    OpenKeeps(OpenStep(grid, dist, c, f));
    AddDescends(dist, c, f);
  }

  /** The arguments of one braid opening. */
  datatype OpenStep = OpenStep(grid: array2<Cell>, dist: map<Pos, nat>, c: Pos, f: Pos)

  twostate lemma OpenKeeps(p: OpenStep)
    requires old(RingIsWall(p.grid) && Labelled(p.grid, p.dist))
    requires OpenedOnly(p.grid, p.c, p.c) && Interior(p.grid, p.c) && p.f in p.dist
    ensures RingIsWall(p.grid) && Labelled(p.grid, p.dist[p.c := p.dist[p.f] + 1])
  {
    var grid, dist := p.grid, p.dist;
    var nd := dist[p.c := dist[p.f] + 1];
    forall e | e in nd
      ensures IsFloor(grid, e)
    {
      if e != p.c {
        assert old(IsFloor(grid, e));
      }
    }
    forall y, x | 0 <= y < grid.Length0 && 0 <= x < grid.Length1 && grid[y, x] == Floor
      ensures (x, y) in nd
    {
      if (x, y) != p.c {
        assert old(grid[y, x]) == Floor;
      }
    }
    forall y, x | 0 <= y < grid.Length0 && 0 <= x < grid.Length1 && !Interior(grid, (x, y))
      ensures grid[y, x] == Wall
    {
      assert old(grid[y, x]) == Wall;
    }
  }

  /** Labelling a new cell one above an adjacent labelled cell keeps the
      labels descending. */
  lemma AddDescends(dist: map<Pos, nat>, c: Pos, f: Pos)
    requires Descending(dist) && f in dist && c !in dist && Adjacent(c, f)
    ensures Descending(dist[c := dist[f] + 1])
  {
    var nd := dist[c := dist[f] + 1];
    forall e | e in nd && e != Start
      ensures HasLowerNeighbour(nd, e)
    {
      if e == c {
        assert LowerAt(nd, e, f);
      } else {
        var b := LowerNeighbour(dist, e);
        assert LowerAt(nd, e, b);
      }
    }
  }

  // ------------------------------------------------------------ the map

  datatype MapData = MapData(grid: array2<Cell>, width: nat, height: nat, startPosition: Pos)

  /** `generateMap`: an odd-sized grid whose ring is wall, whose odd interior
      cells are all carved, and whose floor is 4-connected to the start. */
  method GenerateMap(width: nat, height: nat, rand: nat -> real) returns (m: MapData)
    requires width >= 2 && height >= 2
    requires IsRandomSource(rand)
    ensures fresh(m.grid)
    ensures m.width == ActualSize(width) && m.height == ActualSize(height) && m.startPosition == Start
    ensures m.grid.Length0 == m.height && m.grid.Length1 == m.width
    ensures m.grid[1, 1] == Floor
    ensures RingIsWall(m.grid)
    ensures AllOddCarved(m.grid)
    ensures forall y, x :: 0 <= y < m.height && 0 <= x < m.width && m.grid[y, x] == Floor ==> Reachable(m.grid, (x, y))
  {
    var w := if width % 2 == 0 then width + 1 else width;
    var h := if height % 2 == 0 then height + 1 else height;
    var grid := new Cell[h, w]((_, _) => Wall);
    var k, dist := Backtrack(grid, rand, 0);
    ghost var carved := AllCellsFloor(grid);
    k, dist := Braid(grid, rand, k, dist);
    assert AllOddCarved(grid) by {
      forall y, x | Interior(grid, (x, y)) && Odd((x, y))
        ensures grid[y, x] == Floor
      {
        assert (x, y) in carved;
      }
    }
    AllFloorReachable(grid, dist);
    m := MapData(grid, w, h, Start);
  }

  /** The floor cells of a grid, as a set. */
  ghost function AllCellsFloor(grid: array2<Cell>): set<Pos>
    reads grid
  {
    set x, y | 0 <= x < grid.Length1 && 0 <= y < grid.Length0 && grid[y, x] == Floor :: (x, y)
  }
}
