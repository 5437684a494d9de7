# Backrooms Explorers — a verified model of the level generators and tick rules

This project models, in Dafny, the game logic of the Backrooms Explorers browser game. Rendering, audio and physics are not modelled.

It covers:

- **Level 0 maze**: a recursive-backtracker maze over an odd-sized wall/floor grid, followed by a braiding pass. It is streamed in 12×12-cell chunks of wall boxes, almond-water items, ceiling fixtures and lights.
- **Level 37 dungeon**: a 60×60 grid of rooms placed by rejection sampling, with L-shaped corridors and dead-end tunnels. It is streamed in 10×10-cell chunks of collision boxes, floor tiles, boundary walls, pillars, stairs and rings.
- **Level 816 pursuers**: they chase the player, deal cooldown-gated damage and reset after falling. A panic ramp follows the nearest pursuer. Floating platforms carry the pursuer slots.
- **Pickup trackers**: almond water and canned food, whose progress grows while the player stays near.
- **Crates**: they break once and may drop a pickup.
- **Player rule**: speed, stamina, fatigue, jumping and fall recovery.
- **Global game store**: health, stamina, panic, menu and level.

Stateful parts are classes with `modifies` clauses:

- the maze grid is an `array2`;
- the dungeon's `g`/`roomMap` are `array2`s;
- the store, crate, pickup, player and pursuer are classes;
- the chunk view centre is a class.

The chunk derivations are methods with loops. Each is proved equal to a reference function. The properties are lemmas about those functions: each open cell yields exactly one floor tile, each exposed side exactly one boundary wall, and chunks tile the grid.

Inputs the source takes from its environment are parameters:

- `Math.random()` is an oracle `rand: nat -> real` into [0, 1), read through a draw counter.
- The sine hashes (`hash`, `hash2`, the room-type hash, `seededRandom`) are functions into [0, 1).
- Distances, directions, frame `delta` and `Date.now()` are arguments.
- Physics calls are returned as a list of `SetVelocity`/`SetPosition` commands, in the order the source issues them.

Level 37 indexes its grids `g[x][z]` (`array2` index `[x, z]`). Level 0 indexes `grid[z][x]` (`array2` index `[y, x]`).

Details of the code the model keeps:

- A pursuer hits only when strictly more than 1000 ms have passed since its last hit (`Date.now() - last > 1000`).
- In a tunnel, only steps 2 and later are checked for being solid.

## Model

| member | source | states |
|---|---|---|
| Geometry.ScaledFloor | src/hooks/useMapGeneration.ts:50 | `Math.floor(r * n)` with r in [0,1) is a valid index in [0, n) |
| Chunks.NumChunks | src/components/3d/Level0.tsx:217-218 | the chunk count is the ceiling of dim/size: it covers dim, and one chunk fewer would not |
| Chunks.ChunksTile | src/components/3d/Level0.tsx:82-85 | every cell x in [0, dim) lies in the range [c·size, min(c·size+size, dim)) of exactly one chunk c, namely x / size, and that chunk index is below the chunk count |
| Chunks.ChunkInsideGrid | src/components/3d/Level37.tsx:169-170 | a chunk range never reaches outside [0, dim) |
| Chunks.ActiveChunks | src/components/3d/Level37.tsx:389-397 | lists exactly the in-range chunks within Chebyshev radius 2 of the view centre, each once, in the loop's (cx, cz) order |
| Chunks.BodyShapes | src/components/3d/Level37.tsx:249-255 | the compound body always has at least one shape: the chunk's own shapes when there are any, otherwise the single placeholder box at y = -200 |
| Chunks.ViewTracker.Update | src/components/3d/Level37.tsx:383-386 | reports a change exactly when the new chunk coordinate differs from the stored one; afterwards the stored one is the new one, and nothing changes otherwise |
| GameStore.AddCapped | src/store/useGameStore.ts:48 | `min(v + a, max)`: never above the cap, exact when below it, and never lowering a value that was within the cap when a ≥ 0 |
| GameStore.SubFloored | src/store/useGameStore.ts:49 | `max(v - a, 0)`: never negative, exact when the difference is non-negative, and never raising a non-negative value when a ≥ 0 |
| GameStore.InitialInPools | src/store/useGameStore.ts:30-39 | the initial state has hp = maxHp = 100 and stamina = maxStamina = 100, so both pools are within bounds |
| GameStore.Store.constructor | src/store/useGameStore.ts:30-39 | the store starts not playing, menu closed, volume 0.5, full pools, level 0, not loading, panic 0 |
| GameStore.Store.SetIsPlaying | src/store/useGameStore.ts:41 | only `isPlaying` changes |
| GameStore.Store.SetIsMenuOpen | src/store/useGameStore.ts:42 | only `isMenuOpen` changes |
| GameStore.Store.SetVolume | src/store/useGameStore.ts:43 | only `volume` changes |
| GameStore.Store.ToggleMenu | src/store/useGameStore.ts:44 | `isMenuOpen` is negated and nothing else changes |
| GameStore.ToggleMenuTwice | src/store/useGameStore.ts:44 | toggling the menu twice restores the whole state |
| GameStore.Store.SetHp | src/store/useGameStore.ts:46 | only `hp` changes |
| GameStore.Store.SetStamina | src/store/useGameStore.ts:47 | only `stamina` changes |
| GameStore.Store.Heal | src/store/useGameStore.ts:48 | only hp changes, to `min(hp + a, maxHp)`; with a ≥ 0 the pool bounds are kept and hp does not drop |
| GameStore.Store.Damage | src/store/useGameStore.ts:49 | only hp changes, to `max(hp - a, 0)`; with a ≥ 0 the pool bounds are kept and hp does not rise |
| GameStore.Store.ConsumeStamina | src/store/useGameStore.ts:50 | only stamina changes, to `max(stamina - a, 0)`; with a ≥ 0 the bounds are kept |
| GameStore.Store.RecoverStamina | src/store/useGameStore.ts:51 | only stamina changes, to `min(stamina + a, maxStamina)`; with a ≥ 0 the bounds are kept |
| GameStore.Store.SetLevel | src/store/useGameStore.ts:52 | sets the level, stops play, refills hp and stamina to 100, zeroes panic, and leaves every other field as it was |
| GameStore.Store.SetIsLoading | src/store/useGameStore.ts:53 | only `isLoading` changes |
| GameStore.Store.SetPanicLevel | src/store/useGameStore.ts:54 | only `panicLevel` changes |
| Crates.DropFor | src/components/3d/Crate.tsx:55-57 | water exactly when rand < 0.3, food exactly when 0.3 ≤ rand < 0.6, nothing exactly when rand ≥ 0.6 |
| Crates.Crate.constructor | src/components/3d/Crate.tsx:8-9 | a new crate is unbroken and holds no drop |
| Crates.Crate.Rendered | src/components/3d/Crate.tsx:60-72 | the crate body is shown exactly while unbroken; a pickup of the dropped kind appears only after breaking, 0.2 below the crate, and always once a drop exists |
| Crates.Crate.BreakCrate | src/components/3d/Crate.tsx:52-58 | a broken crate is left untouched; otherwise it becomes broken and takes the drop chosen by the random value, if any |
| Crates.Crate.OnCollide | src/components/3d/Crate.tsx:45-48 | a collision breaks the crate exactly when it is unbroken and the impact speed is above 5; otherwise nothing changes |
| Crates.BreakTwice | src/components/3d/Crate.tsx:52-54 | breaking is idempotent: a second break leaves the first drop in place |
| Pickups.Tick | src/components/3d/AlmondWater.tsx:14-39 | a hidden item is inert. An item is consumed exactly when it is visible, the player is within the radius, and progress plus delta reaches the threshold; the item is then hidden. Otherwise, within the radius progress grows by delta, and outside it non-negative progress resets to 0 |
| Pickups.TickKeepsProgressInRange | src/components/3d/CannedFood.tsx:26-33 | with delta ≥ 0, a visible item's progress stays in [0, threshold) |
| Pickups.HiddenStaysInert | src/components/3d/AlmondWater.tsx:15 | any run of frames leaves a hidden item unchanged and applies no effect |
| Pickups.EffectAtMostOnce | src/components/3d/AlmondWater.tsx:28-32 | over any run of frames the effect fires at most once, and after it the item is hidden |
| Pickups.StayingPicksUpOnce | src/components/3d/CannedFood.tsx:25-31 | staying within the radius for at least the threshold time consumes the item exactly once |
| Pickups.LeavingRestartsFromZero | src/components/3d/AlmondWater.tsx:36-38 | a frame outside the radius resets partial progress, so later frames behave as for a fresh item |
| Pickups.Pickup.constructor | src/components/3d/AlmondWater.tsx:8-9 | a new pickup is visible with progress 0 |
| Pickups.Pickup.OnFrame | src/components/3d/CannedFood.tsx:13-38 | the item follows `Tick`. On consumption the store receives exactly the kind's heal and stamina recovery (50/50 for food, 30/100 for water); otherwise the store is untouched. The progress range is kept |
| PlayerControl.SpawnPosition | src/components/3d/Player.tsx:21-28 | spawn is (4.5, 2, 4.5) except on level 1, where x and z lie in [10, 70) at height 2 |
| PlayerControl.Exert | src/components/3d/Player.tsx:132-144 | run speed 16 exactly when moving, running, not fatigued and with stamina > 0, else 5. Running drains and sets fatigue iff stamina ≤ 1. Trying to run with no stamina sets fatigue. Not running regenerates below max and clears fatigue only above 30 |
| PlayerControl.FatigueBlocksRunning | src/components/3d/Player.tsx:133-143 | a fatigued player at stamina ≤ 30 walks and stays fatigued whatever the input |
| PlayerControl.FallRecovery | src/components/3d/Player.tsx:106-109 | below y = -15 the body is put at (0, 5, 0) with zero velocity; otherwise no command |
| PlayerControl.Player.constructor | src/components/3d/Player.tsx:40-57 | the refs start unfatigued, not grounded, last jump at 0, zero velocity and position |
| PlayerControl.Player.OnVelocity | src/components/3d/Player.tsx:41 | the velocity feed overwrites only the cached velocity |
| PlayerControl.Player.OnPosition | src/components/3d/Player.tsx:44 | the position feed overwrites only the cached position |
| PlayerControl.Player.OnFrame | src/components/3d/Player.tsx:97-158 | grounded iff vertical speed < 0.15; the fall check comes first. When paused or dead, only the vertical velocity is kept and no state or store change happens. Otherwise the velocity is the direction times `Exert`'s speed; stamina changes as `Exert` says; a jump fires and is recorded only when grounded and more than 700 ms after the last one |
| Level816.Panic | src/components/3d/Level816.tsx:196 | panic is in [0,1], equals 1 at distance ≤ 2, 0 at distance ≥ 16, and (16 - d)/14 between |
| Level816.PanicHalfway | src/components/3d/Level816.tsx:195-196 | panic at distance 9 is exactly 0.5 |
| Level816.PanicMonotone | src/components/3d/Level816.tsx:196 | a nearer pursuer never lowers panic |
| Level816.MinPlayerDist | src/components/3d/Level816.tsx:188-193 | the fold yields the smallest distance, capped at the starting value 100, and it is either 100 or one of the distances |
| Level816.PanicFrame | src/components/3d/Level816.tsx:187-198 | published panic is in [0,1], is 0 with no pursuers, is at least the panic of every pursuer, and is the panic of 100 or of some pursuer's distance |
| Level816.KeptPlatformsShape | src/components/3d/Level816.tsx:113-125 | each kept platform lies at least 12 from the start on x or z, is 0.5 thick, has x and z sizes in [10, 18), and at most `count` are kept |
| Level816.GeneratePlatforms | src/components/3d/Level816.tsx:103-127 | the list is the start platform (4.5, 0, 4.5) sized 15×0.5×15, followed by the kept candidates in order |
| Level816.EntitySlots | src/components/3d/Level816.tsx:179-183 | slot k is platform 5·(k+1) raised 3 on y, and there are (n - 1)/5 slots for n platforms |
| Level816.SlotsClosedForm | src/components/3d/Level816.tsx:180-182 | the filter over indices i > 0 with i % 5 == 0, started at any i, produces exactly the multiples of 5 from that point on |
| Level816.ChaseVelocity | src/components/3d/Level816.tsx:47-56 | within 25 the horizontal velocity is direction × 4.5, otherwise zero; the vertical component is always the current one |
| Level816.HitsSpacedByCooldown | src/components/3d/Level816.tsx:65-68 | over any sequence of frames, successive hits are more than 1000 ms apart, and the first is more than 1000 ms after the last recorded one |
| Level816.Pursuer.constructor | src/components/3d/Level816.tsx:10-34 | a pursuer starts at its initial position, at rest, with last damage at 0 |
| Level816.Pursuer.OnPosition | src/components/3d/Level816.tsx:25-30 | the position feed overwrites only the cached position |
| Level816.Pursuer.OnVelocity | src/components/3d/Level816.tsx:21-22 | the velocity feed overwrites only the cached velocity |
| Level816.Pursuer.OnFrame | src/components/3d/Level816.tsx:37-69 | paused or dead: one zero-velocity command and no damage. Otherwise: the chase command, then the fall reset when y < -15. The velocity the body keeps is zero after a fall or when stopped, the chase velocity otherwise. Damage 20 is dealt, and the hit time recorded, exactly when dist < 1.5 and more than 1000 ms have passed |
| Level816.FallOverridesChase | src/components/3d/Level816.tsx:53-62 | after a fall reset the last velocity command is zero, overriding the chase; without one, the chase velocity stands |
| MazeGeneration.ActualSize | src/hooks/useMapGeneration.ts:31-32 | the actual size is odd and is n or n + 1 |
| MazeGeneration.ActualSizeLeastOdd | src/hooks/useMapGeneration.ts:31-32 | it is the least odd number ≥ n: odd sizes are kept, and the rounding is idempotent |
| MazeGeneration.GetNeighbors | src/hooks/useMapGeneration.ts:88-107 | returns exactly the cells two steps away that are strictly inside the border ring and still wall, in up/down/left/right order, at most four |
| MazeGeneration.PathFromStart | src/hooks/useMapGeneration.ts:43-78 | any cell labelled by the connectivity witness has a 4-connected floor path from (1,1) |
| MazeGeneration.AllFloorReachable | src/hooks/useMapGeneration.ts:43-78 | given the witness, every floor cell is reachable from (1,1) by floor-to-floor moves |
| MazeGeneration.ClosedMeansAllCarved | src/hooks/useMapGeneration.ts:43-60 | once the stack is empty, every odd interior cell is floor |
| MazeGeneration.Backtrack | src/hooks/useMapGeneration.ts:36-60 | the backtracker terminates with (1,1) floor, the border ring all wall, every odd interior cell carved, and every floor cell connected to (1,1) |
| MazeGeneration.CarveStep | src/hooks/useMapGeneration.ts:44-59 | one iteration keeps the stack invariants (odd, interior, floor entries; cells off the stack closed) and either carves a new cell or pops, which is the termination measure |
| MazeGeneration.CarveToward | src/hooks/useMapGeneration.ts:50-56 | carving toward a candidate keeps the invariants and adds one previously uncarved cell |
| MazeGeneration.NoCandidateClosed | src/hooks/useMapGeneration.ts:48-58 | a cell with no candidates has no wall cell two steps away inside the border |
| MazeGeneration.StepGeometry | src/hooks/useMapGeneration.ts:53-54 | from an odd cell the candidate is odd and the midpoint `(c+n)/2` is an interior cell adjacent to both |
| MazeGeneration.Push | src/hooks/useMapGeneration.ts:53-56 | opening the midpoint and the candidate and pushing the candidate keeps the ring, the stack invariant and connectivity |
| MazeGeneration.PopKeeps | src/hooks/useMapGeneration.ts:57-58 | popping a closed top keeps the stack invariant |
| MazeGeneration.RingFromShape | src/hooks/useMapGeneration.ts:101 | the carved shape never touches the border ring |
| MazeGeneration.FloorNeighbours | src/hooks/useMapGeneration.ts:68-72 | a cell has at most four floor neighbours |
| MazeGeneration.BraidAttempts | src/hooks/useMapGeneration.ts:63 | the braid loop runs for the least n with n ≥ 10% of the cell count |
| MazeGeneration.Braid | src/hooks/useMapGeneration.ts:63-78 | braiding draws two numbers per attempt, never turns floor into wall, opens only interior walls, and keeps the ring and connectivity |
| MazeGeneration.Attempt | src/hooks/useMapGeneration.ts:64-77 | a drawn cell is opened exactly when it is a wall with at least two floor neighbours; otherwise the grid is unchanged |
| MazeGeneration.CountConnections | src/hooks/useMapGeneration.ts:68-72 | counts the floor cells among the four neighbours, all read in bounds |
| MazeGeneration.OpenCell | src/hooks/useMapGeneration.ts:74-76 | opening a wall next to floor keeps the ring and connectivity |
| MazeGeneration.GenerateMap | src/hooks/useMapGeneration.ts:28-86 | the map has odd dimensions from `ActualSize` and start (1,1), which is floor. The border ring is all wall, every odd interior cell is floor, and every floor cell is reachable from the start |
| Level37Grid.SeparatedRooms | src/components/3d/Level37.tsx:304 | the overlap test is symmetric, and two rooms that pass it have cells more than 2 apart on some axis |
| Level37Grid.Candidate | src/components/3d/Level37.tsx:300-303 | a random room has w, h in {2,3,4} and lies within [2, GRID - 4] |
| Level37Grid.SomeOverlapIff | src/components/3d/Level37.tsx:304 | `rooms.some(...)` holds iff some placed room hits the extended test |
| Level37Grid.PlaceRooms | src/components/3d/Level37.tsx:294-307 | room 0 is the 3×3 block at (29,29). At most 30 rooms and 800 tries; the loop stops only at 30 rooms or 800 tries. Each try uses four draws. Every room is in band and rooms are pairwise separated. The rooms are exactly `Placed` after the tries made: every room is one try's candidate, and every dropped candidate overlapped a room |
| Level37Grid.Placed | src/components/3d/Level37.tsx:294-307 | the reference placement: a try finding fewer than 30 rooms appends its candidate exactly when it overlaps none of the rooms accepted before it; 1 to 30 rooms, room 0 first |
| Level37Grid.PlacedShapes | src/components/3d/Level37.tsx:298-306 | placed rooms after room 0 have the drawn shape, all lie in the band, and pass the overlap test against each other |
| Level37Grid.PlacedFromDraws | src/components/3d/Level37.tsx:298-306 | every placed room after room 0 is the candidate of an earlier try |
| Level37Grid.PlacedDropped | src/components/3d/Level37.tsx:298-306 | while fewer than 30 rooms were placed, every try's candidate was kept or overlaps a placed room |
| Level37Grid.DroppedOne | src/components/3d/Level37.tsx:304-306 | one try's candidate stays kept or overlapping after a later try |
| Level37Grid.TryRooms | src/components/3d/Level37.tsx:296-307 | the loop stops at 30 rooms or 800 tries, and its rooms are `Placed` after the tries made |
| Level37Grid.TryRoom | src/components/3d/Level37.tsx:298-306 | one try turns `Placed` after t tries into `Placed` after t + 1 |
| Level37Grid.DrawRoom | src/components/3d/Level37.tsx:299-302 | the four draws give exactly the candidate `Candidate` names |
| Level37Grid.OverlapKept | src/components/3d/Level37.tsx:304 | a draw that overlapped an earlier prefix of rooms still overlaps once more rooms are added |
| Level37Grid.RoomTypes | src/components/3d/Level37.tsx:309-313 | one type per room, room 0 is type 0, and every type is in {0,1,2,3} |
| Level37Grid.Owner | src/components/3d/Level37.tsx:315-321 | the last room in the list that contains a cell, or -1 |
| Level37Grid.OwnerOfRoomCell | src/components/3d/Level37.tsx:315-321 | with separated rooms, a cell of room ri is owned by ri |
| Level37Grid.CarveRoom | src/components/3d/Level37.tsx:316-320 | the room's cells become 1 and tagged ri; every other cell is unchanged |
| Level37Grid.CarveRooms | src/components/3d/Level37.tsx:315-321 | afterwards each cell's tag is its owner and it is open iff owned |
| Level37Grid.CarveCorridor | src/components/3d/Level37.tsx:325-330 | the cells of the L path (x first, then z) become 1; every other cell is unchanged |
| Level37Grid.CorridorInBand | src/components/3d/Level37.tsx:324-331 | corridors between in-band room centres stay within [2, GRID - 4] |
| Level37Grid.CarveCorridors | src/components/3d/Level37.tsx:324-331 | exactly the cells on some corridor between consecutive rooms become 1; every other cell keeps its value; changed cells lie inside [2, GRID - 4] |
| Level37Grid.CorridorBeforeNext | src/components/3d/Level37.tsx:324-331 | one more room adds exactly its corridor to the corridors before it |
| Level37Grid.CanPlace | src/components/3d/Level37.tsx:344-351 | the check passes iff every step lies in [1, GRID - 2] and every step s ≥ 2 is solid |
| Level37Grid.TunnelCells | src/components/3d/Level37.tsx:353-356 | the tunnel consists exactly of steps 1..len in the chosen direction |
| Level37Grid.TryTunnel | src/components/3d/Level37.tsx:343-357 | a tunnel is carved iff it fits; only its cells change, to 1 |
| Level37Grid.TunnelPlan | src/components/3d/Level37.tsx:340-343 | the direction is in 0..3 and the length in 2..4 |
| Level37Grid.TunnelInside | src/components/3d/Level37.tsx:346-348 | a fitting tunnel stays within [1, GRID - 2] |
| Level37Grid.CarveTunnels | src/components/3d/Level37.tsx:334-359 | the tunnel pass only sets cells to 1, only inside [1, GRID - 2], and every opened cell lies on the planned tunnel of an origin in [2, GRID - 3]² that is open and whose second hash is at most 0.04 |
| Level37Grid.TunnelAt | src/components/3d/Level37.tsx:336-357 | one origin: if it is open, its second hash is at most 0.04 and its planned tunnel fits, exactly the tunnel's cells open; otherwise nothing changes |
| Level37Grid.ShiftX | src/components/3d/Level37.tsx:363-365 | oX moves the room's centre column to world x = 4.5 |
| Level37Grid.ShiftZ | src/components/3d/Level37.tsx:364-365 | oZ moves the room's centre row to world z = 4.5 |
| Level37Grid.StartRoomOffsets | src/components/3d/Level37.tsx:361-365 | off = 88.5 and oX = oZ = 3, so cell 30 (the start room centre) is at world 4.5 |
| Level37Grid.CarvedRooms | src/components/3d/Level37.tsx:315-331 | after carving, every cell of room ri is open and tagged ri |
| Level37Grid.CarvedRoomCell | src/components/3d/Level37.tsx:315-321 | a single cell of room ri is on the grid, open and tagged ri |
| Level37Grid.CarveRoomsAndCorridors | src/components/3d/Level37.tsx:315-331 | the grid is carved: owned cells open and tagged, other cells 0/1, the ring 0, corridors open; a cell is open exactly when it is owned or on a corridor |
| Level37Grid.AddTunnels | src/components/3d/Level37.tsx:333-359 | tunnels keep the carved state: tags unchanged, ring solid, rooms and corridors still open; only solid cells change, each onto the tunnel of an open origin that passes the gate |
| Level37Grid.GenerateGrid | src/components/3d/Level37.tsx:286-366 | 1-30 separated in-band rooms starting with the fixed room 0; types from the room hash; off 88.5, oX = oZ = 3; every cell of room ri open and tagged ri; every corridor open. The rooms are `Placed` after the tries made, with four draws per try. Every open cell is a room cell, a corridor cell, or on the tunnel of an open origin that passes the gate |
| Level0.WallVisited | src/components/3d/Level0.tsx:97-101 | a visited wall cell adds exactly one (3,5,3) box at (3x, 2.5, 3z) and one visual; a floor cell adds none |
| Level0.ItemVisited | src/components/3d/Level0.tsx:104-106 | a visited cell adds an item iff it is floor with hash < 0.01, at (3x, 0.25, 3z) |
| Level0.ScanCells | src/components/3d/Level0.tsx:95-108 | the wall visuals are exactly the wall cells in range, in scan order. One box per wall matches its visual. Items are exactly the floor cells with hash < 0.01 |
| Level0.ScanRow | src/components/3d/Level0.tsx:96-107 | one row of the scan extends the wall and item lists by exactly that row's cells |
| Level0.ScanComplete | src/components/3d/Level0.tsx:95-108 | a finished scan has listed exactly the cells of the whole range |
| Level0.CeilMultiple | src/components/3d/Level0.tsx:111 | `ceil(s / k) * k` is the first multiple of k at or after s |
| Level0.CeilLeast | src/components/3d/Level0.tsx:111-112 | it is the least such multiple, so the lattice loop starts at the first multiple in range |
| Level0.Lattice | src/components/3d/Level0.tsx:111-115 | the loop lists exactly the in-range cells whose coordinates are both multiples of the step, x-major |
| Level0.MazeChunk | src/components/3d/Level0.tsx:82-142 | walls, items, fixtures every 3 cells and lights every 12 cells are exactly those of the chunk's cell range. A light shines iff x and z are multiples of 36. The body is the wall boxes, or the single placeholder when there are none |
| Level0.ChunkOwner | src/components/3d/Level0.tsx:82-85 | a map cell lies in the range of exactly one chunk, (x/12, z/12), which is a rendered chunk; so no wall, item or fixture is produced twice |
| Level0.ViewChunk | src/components/3d/Level0.tsx:201-204 | the view chunk is floor(pos / 3 / 12): the 36-unit band holding the camera |
| Level0.ViewOverOwnChunk | src/components/3d/Level0.tsx:201-204 | a camera over cell x sees chunk x / 12 |
| Level0.TrackView | src/components/3d/Level0.tsx:200-209 | the stored view centre becomes the camera's chunk, and a change is reported exactly when it moved |
| Level0.VisibleChunks | src/components/3d/Level0.tsx:211-230 | nothing while the grid is empty; otherwise exactly the chunks within Chebyshev radius 2 that are inside ceil(dim/12) |
| Level37Chunks.LayoutOf | src/components/3d/Level37.tsx:168 | the chunk reads the same `g`/`roomMap` cells and copies `roomTypes`, `oX`, `oZ`, `off` from the generated grid |
| Level37Chunks.MapChunk | src/components/3d/Level37.tsx:164-255 | the loops produce exactly the chunk's specified pieces, and the body is those shapes or the placeholder |
| Level37Chunks.EmitBlock | src/components/3d/Level37.tsx:178-245 | the x loop concatenates the columns of the range in order |
| Level37Chunks.EmitColumn | src/components/3d/Level37.tsx:179-244 | the z loop concatenates the cells of one column in order |
| Level37Chunks.EmitCell | src/components/3d/Level37.tsx:180-243 | one cell's body produces the cell's specified pieces |
| Level37Chunks.EmitDecor | src/components/3d/Level37.tsx:187-227 | the decoration branch produces the room-type decoration of the cell |
| Level37Chunks.EmitStairs | src/components/3d/Level37.tsx:204-214 | the stair loop yields the three steps, each with its collision box |
| Level37Chunks.EmitSides | src/components/3d/Level37.tsx:229-243 | the side loop yields the boundary walls of the exposed sides and their boxes |
| Level37Chunks.SideWallsShape | src/components/3d/Level37.tsx:236-243 | each boundary wall belongs to its cell, names a side < 4 that is exposed, and has that side's box |
| Level37Chunks.SideWallCount | src/components/3d/Level37.tsx:236-243 | side i yields exactly one wall if it is exposed (neighbour out of bounds or solid), else none |
| Level37Chunks.StairStepsShape | src/components/3d/Level37.tsx:204-207 | there are exactly three steps, s = 0, 1, 2, each at its own offset |
| Level37Chunks.CellFloor | src/components/3d/Level37.tsx:180-185 | a solid cell yields nothing; an open cell yields exactly one floor tile |
| Level37Chunks.CellBalanced | src/components/3d/Level37.tsx:207-240 | a cell's collision shapes are exactly its stair boxes followed by its wall and pillar boxes |
| Level37Chunks.CellWalls | src/components/3d/Level37.tsx:215-243 | wall visuals of a cell are its exposed-side walls, room pillars only in type-3 rooms with hash < 0.25 and size 0.8×11×0.8, and corridor pillars only off-room with hash < 0.03 at the cell centre |
| Level37Chunks.CellDecor | src/components/3d/Level37.tsx:190-214 | rings only in type-1 rooms with hash < 0.15; stairs only in type-2 rooms with hash < 0.08, three steps |
| Level37Chunks.CellCounts | src/components/3d/Level37.tsx:184-243 | per cell, exactly one floor tile iff open, and one boundary wall per exposed side iff open |
| Level37Chunks.ChunkCount | src/components/3d/Level37.tsx:178-245 | a key occurs in a chunk as often as in its own cell when that cell is in the chunk range, else never |
| Level37Chunks.FloorTilesOnce | src/components/3d/Level37.tsx:178-185 | each open cell of the chunk range has exactly one floor tile in the chunk; other cells none |
| Level37Chunks.BoundaryWallsOnce | src/components/3d/Level37.tsx:229-243 | each exposed side of each open cell in range has exactly one boundary wall in the chunk; nothing else does |
| Level37Chunks.ShapesAccounted | src/components/3d/Level37.tsx:173-246 | the chunk's collision shapes are, as a multiset, exactly its stair boxes plus its wall-visual boxes |
| Level37Chunks.ChunkFrom | src/components/3d/Level37.tsx:178-179 | every piece of the chunk comes from a cell inside the chunk range |
| Level37Chunks.FloorOrigin | src/components/3d/Level37.tsx:185 | a floor tile in the chunk is the tile of an open cell inside the range |
| Level37Chunks.WallOrigin | src/components/3d/Level37.tsx:220-241 | a wall visual in the chunk is one its own cell produces |
| Level37Chunks.DecorOrigin | src/components/3d/Level37.tsx:196-209 | a decoration in the chunk is one its own cell produces |
| Level37Chunks.ChunkWallPlacement | src/components/3d/Level37.tsx:178-245 | across the chunk, floors sit on open cells. Boundary walls sit only on exposed sides. Room pillars are only in type-3 rooms and corridor pillars only off-room |
| Level37Chunks.ChunkDecorPlacement | src/components/3d/Level37.tsx:190-214 | across the chunk, decorations sit on open cells: stairs only in type-2 rooms, rings only in type-1 rooms |
| Level37Chunks.NumCIsCeiling | src/components/3d/Level37.tsx:389 | `numC = ceil(60/10) = 6` |
| Level37Chunks.ViewChunk | src/components/3d/Level37.tsx:379-382 | the view chunk is the 30-unit band holding the shifted camera coordinate |
| Level37Chunks.ViewOverCell | src/components/3d/Level37.tsx:374-382 | a camera over cell i sees chunk i / 10; `spawnC = 3` and the spawn point (4.5) is in chunk 3 |
| Level37Chunks.TrackView | src/components/3d/Level37.tsx:378-387 | the stored view centre becomes the camera's chunk, and a change is reported exactly when it moved |
| Level37Chunks.VisibleChunks | src/components/3d/Level37.tsx:389-397 | exactly the chunks of the 6×6 grid within Chebyshev radius 2 of the view centre, in loop order |

## Left out

- Rendering, textures, meshes, materials, lights' intensity and colours, `Car`, `FluorescentLight`, the loading screen, the menu, the error boundary, audio (`Ambience`) and the app's game-over timer: they have no game logic to state.
- The physics engine: a chunk's compound body is its shape list (`Chunks.BodyShapes`), and dynamic bodies are command lists plus position/velocity feeds. Registering and unregistering bodies when chunks enter or leave the active set is React mounting and is not modelled.
- React memoisation and `useState` re-render timing: each chunk derivation is a function of its inputs, so recomputing it yields the same lists by construction. Stale closures (the captured `isBroken` in the crate's collision callback) are not modelled.
- `document.title`, `console.log`, the pickups' float and spin animations, Level 816's shard rotation and star field: presentation only.
- Exact values of the sine hashes and `seededRandom`, and the uniformity of `Math.random()`: floating-point numerics, taken as arbitrary values in [0, 1).
- IEEE-754 double rounding: every number is an exact `real`. Accumulated frame deltas in a pickup's progress (compared with 1.0 and 1.2), the stamina steps of -0.5 and +0.3 against the `<= 1`, `> 0` and `> 30` tests, Level 816's panic ramp `1 - (d - 2) / 14`, and the chunk world coordinates `x * CS - off + oX` are all computed exactly, so a threshold that doubles would miss or hit by one rounding step is not reproduced.
- Three.js vector maths (`distanceTo`, `normalize`, `getWorldDirection`, the camera copy): distances and normalised directions are inputs.
- Level37Chunks.MapChunk: reads an immutable `Layout` of the generated grid (`LayoutOf`) rather than the arrays themselves, since the grid is not changed after generation.
- Level37Chunks.CellDecor: does not state a ring's world offset, colour or rotation, nor a room pillar's hash-driven offset, which are cosmetic.
- MazeGeneration.GenerateMap: requires width and height ≥ 2. With height < 2 the source's `newGrid[1]` is undefined and the write of the start cell (useMapGeneration.ts:40) throws; with width < 2 and height ≥ 2 that write silently lengthens row 1 by one cell. The only call, `useMapGeneration(71, 71)` (src/components/3d/Level0.tsx:193), meets the requirement.
- MazeGeneration.Braid: the "at least two floor neighbours" rule is stated per attempt (`MazeGeneration.Attempt`), not as a quantified postcondition of the whole pass.
- MazeGeneration.Backtrack: does not state that the random choice is uniform among the candidates; the index is any in-range value drawn from the oracle.
- Level37Grid.CarveTunnels: states which origins may have carved each opened cell, not the order of the attempts or which tunnels were refused; the single step is stated exactly by `Level37Grid.TunnelAt`.
- Level37Grid.GenerateGrid: does not prove that every open cell is reachable from room 0 (corridors link consecutive rooms and tunnels branch from open cells, but no connectivity witness is built for this grid).
- Level816.Pursuer.OnFrame: the source reads `Date.now()` twice in one tick; the model uses one `now` for both.
- PlayerControl.Player.OnFrame: the same single `now` for the jump check and the recorded jump time; keyboard listeners are not modelled and arrive as the movement direction and the run/jump flags.
- Level816 unmount cleanup (`return () => setPanicLevel(0)`, src/components/3d/Level816.tsx:171-174): React unmounting is not modelled; `GameStore.Store.SetLevel` already sets the panic level to 0 when a level is entered.
- Level816.GeneratePlatforms: platform positions come from `seededRandom` as an oracle, so only the start platform, the skip rule and the size ranges are stated.
