/** Level 816: floating platforms in a void, and the pursuing entities that
    stand on every fifth of them. Each entity chases the observer inside 25
    units, is put back at its spawn point after a fall, and hits for 20
    behind a per-entity 1000 ms cooldown; the nearest entity drives the
    global panic level. Distances and the normalised chase direction are
    inputs; `seededRandom` is an opaque function into [0, 1). */
module Level816 {
  import opened Geometry
  import GameStore

  const ChaseRadius := 25.0
  const ChaseSpeed := 4.5
  const ContactRange := 1.5
  const HitDamage := 20.0
  /** Milliseconds of cooldown between two hits of one entity. */
  const Cooldown := 1000
  const FallDepth := -15.0

  // ---------------------------------------------------------------- panic

  /** The clamped linear panic ramp: 1 at distance 2 or less, 0 at 16 or more. */
  function Panic(d: real): (p: real)
    ensures 0.0 <= p <= 1.0
    ensures d <= 2.0 ==> p == 1.0
    ensures d >= 16.0 ==> p == 0.0
    ensures 2.0 <= d <= 16.0 ==> p == (16.0 - d) / 14.0
  {
    Max(0.0, Min(1.0, 1.0 - (d - 2.0) / 14.0))
  }

  lemma PanicHalfway()
    ensures Panic(9.0) == 0.5
  {
  }

  /** Nearer entities never produce less panic. */
  lemma PanicMonotone(d1: real, d2: real)
    requires d1 <= d2
    ensures Panic(d1) >= Panic(d2)
  {
  }

  /** The per-frame fold over the known entity distances, starting from 100. */
  method MinPlayerDist(ds: seq<real>) returns (m: real)
    ensures m <= 100.0
    ensures forall i :: 0 <= i < |ds| ==> m <= ds[i]
    ensures m == 100.0 || m in ds
  {
    m := 100.0;
    for i := 0 to |ds|
      invariant m <= 100.0
      invariant forall j :: 0 <= j < i ==> m <= ds[j]
      invariant m == 100.0 || m in ds[..i]
    {
      if ds[i] < m {
        m := ds[i];
      }
    }
  }

  /** The panic level published each frame. With no known entity it is 0. */
  method PanicFrame(ds: seq<real>) returns (p: real)
    ensures 0.0 <= p <= 1.0
    ensures ds == [] ==> p == 0.0
    ensures forall i :: 0 <= i < |ds| ==> p >= Panic(ds[i])
    ensures exists d :: (d == 100.0 || d in ds) && p == Panic(d)
  {
    var m := MinPlayerDist(ds);
    p := Panic(m);
    forall i | 0 <= i < |ds|
      ensures p >= Panic(ds[i])
    {
      PanicMonotone(m, ds[i]);
    }
  }

  // ------------------------------------------------------------ platforms

  datatype Platform = Platform(p: V3, s: V3)

  const StartPlatform := Platform(V3(4.5, 0.0, 4.5), V3(15.0, 0.5, 15.0))

  ghost predicate IsSeededRandom(sr: real -> real)
  {
    forall s :: 0.0 <= sr(s) < 1.0
  }

  /** The i-th candidate platform, before the exclusion test. */
  function Candidate(sr: real -> real, i: nat): Platform
  {
    var ir := i as real;
    Platform(V3((sr(ir * 123.4) - 0.5) * 120.0, (sr(ir * 567.8) - 0.5) * 15.0, (sr(ir * 910.1) - 0.5) * 120.0),
             V3(10.0 + sr(ir * 222.0) * 8.0, 0.5, 10.0 + sr(ir * 333.0) * 8.0))
  }

  /** Candidates this close to the start platform are skipped. */
  predicate NearStart(pl: Platform)
  {
    Abs(pl.p.x - 4.5) < 12.0 && Abs(pl.p.z - 4.5) < 12.0
  }

  /** The kept candidates among the first n, in order. */
  function Kept(sr: real -> real, n: nat): seq<Platform>
  {
    if n == 0 then []
    else Kept(sr, n - 1) + (if NearStart(Candidate(sr, n - 1)) then [] else [Candidate(sr, n - 1)])
  }

  /** Every random platform keeps clear of the start area and has
      horizontal sizes in [10, 18). */
  lemma {:induction false} KeptPlatformsShape(sr: real -> real, n: nat)
    requires IsSeededRandom(sr)
    ensures |Kept(sr, n)| <= n
    ensures forall k :: 0 <= k < |Kept(sr, n)| ==>
      !NearStart(Kept(sr, n)[k]) &&
      10.0 <= Kept(sr, n)[k].s.x < 18.0 && 10.0 <= Kept(sr, n)[k].s.z < 18.0 && Kept(sr, n)[k].s.y == 0.5
  {
    if n > 0 {
      KeptPlatformsShape(sr, n - 1);
      var c := Candidate(sr, n - 1);
      var ir := (n - 1) as real;
      assert 0.0 <= sr(ir * 222.0) < 1.0 && 0.0 <= sr(ir * 333.0) < 1.0;
    }
  }

  /** `generatePlatforms(count)`: the start platform, then every candidate
      outside the start area, in index order. */
  method GeneratePlatforms(count: nat, sr: real -> real) returns (list: seq<Platform>)
    ensures list == [StartPlatform] + Kept(sr, count)
    ensures list[0] == StartPlatform
  {
    list := [StartPlatform];
    for i := 0 to count
      invariant list == [StartPlatform] + Kept(sr, i)
    {
      var ir := i as real;
      var x := (sr(ir * 123.4) - 0.5) * 120.0;
      var y := (sr(ir * 567.8) - 0.5) * 15.0;
      var z := (sr(ir * 910.1) - 0.5) * 120.0;
      if Abs(x - 4.5) < 12.0 && Abs(z - 4.5) < 12.0 {
        continue;
      }
      var sx := 10.0 + sr(ir * 222.0) * 8.0;
      var sz := 10.0 + sr(ir * 333.0) * 8.0;
      list := list + [Platform(V3(x, y, z), V3(sx, 0.5, sz))];
    }
  }

  // -------------------------------------------------------- entity slots

  function Raised(pl: Platform): V3
  {
    V3(pl.p.x, pl.p.y + 3.0, pl.p.z)
  }

  /** The entity spawn points among platforms `i .. |ps|-1`: those with an
      index above 0 that is a multiple of 5, raised by 3. */
  function SlotsFrom(ps: seq<Platform>, i: nat): seq<V3>
    requires i <= |ps|
    decreases |ps| - i
  {
    if i == |ps| then []
    else (if i > 0 && i % 5 == 0 then [Raised(ps[i])] else []) + SlotsFrom(ps, i + 1)
  }

  /** The `filter`/`map` of platforms to entity spawn points. */
  function EntitySlots(ps: seq<Platform>): (r: seq<V3>)
    ensures |ps| > 0 ==> |r| == (|ps| - 1) / 5
    ensures forall k :: 0 <= k < |r| ==> 5 * (k + 1) < |ps| && r[k] == Raised(ps[5 * (k + 1)])
  {
    SlotsClosedForm(ps, 0);
    SlotsFrom(ps, 0)
  }

  /** The first slot at or after index i is platform 5 * FirstSlot(i). */
  function FirstSlot(i: nat): nat
  {
    if i == 0 then 1 else (i + 4) / 5
  }

  lemma {:induction false} SlotsClosedForm(ps: seq<Platform>, i: nat)
    requires i <= |ps|
    ensures var r := SlotsFrom(ps, i);
      && |r| == (if |ps| == 0 then 0 else (|ps| - 1) / 5 + 1 - FirstSlot(i))
      && forall k :: 0 <= k < |r| ==> 5 * (FirstSlot(i) + k) < |ps| && r[k] == Raised(ps[5 * (FirstSlot(i) + k)])
    decreases |ps| - i
  {
    if i < |ps| {
      SlotsClosedForm(ps, i + 1);
      var rest := SlotsFrom(ps, i + 1);
      if i > 0 && i % 5 == 0 {
        assert FirstSlot(i) == i / 5;
        assert FirstSlot(i + 1) == i / 5 + 1;
        var r := SlotsFrom(ps, i);
        assert r == [Raised(ps[i])] + rest;
        forall k | 0 <= k < |r|
          ensures 5 * (FirstSlot(i) + k) < |ps| && r[k] == Raised(ps[5 * (FirstSlot(i) + k)])
        {
          if k > 0 {
            assert r[k] == rest[k - 1];
          }
        }
      } else {
        assert FirstSlot(i) == FirstSlot(i + 1);
      }
    } else {
      assert |ps| == 0 || (|ps| - 1) / 5 + 1 - FirstSlot(i) <= 0;
    }
  }

  // ------------------------------------------------------------- pursuer

  /** The velocity command of a playing frame: toward the observer at 4.5
      inside the chase radius, horizontally still outside it; the vertical
      component is always the body's own. */
  function ChaseVelocity(dist: real, dir: V3, vy: real): (v: V3)
    ensures v.y == vy
    ensures dist < ChaseRadius ==> v.x == dir.x * ChaseSpeed && v.z == dir.z * ChaseSpeed
    ensures dist >= ChaseRadius ==> v.x == 0.0 && v.z == 0.0
  {
    if dist < ChaseRadius then V3(dir.x * ChaseSpeed, vy, dir.z * ChaseSpeed) else V3(0.0, vy, 0.0)
  }

  /** A hit lands iff the observer is in contact range and the entity's
      cooldown has run out. */
  predicate Hits(dist: real, now: int, lastDamage: int)
  {
    dist < ContactRange && now - lastDamage > Cooldown
  }

  /** One frame of contact bookkeeping as seen by the cooldown: observer
      distance and clock reading. */
  datatype Contact = Contact(dist: real, now: int)

  /** The times at which hits land over a sequence of frames, starting from
      the given last-damage time. */
  function HitTimes(last: int, frames: seq<Contact>): seq<int>
    decreases |frames|
  {
    if frames == [] then []
    else if Hits(frames[0].dist, frames[0].now, last) then [frames[0].now] + HitTimes(frames[0].now, frames[1..])
    else HitTimes(last, frames[1..])
  }

  /** Hits are spaced by more than the cooldown, whatever the frame rate and
      even if the clock is not monotonic. */
  lemma {:induction false} HitsSpacedByCooldown(last: int, frames: seq<Contact>)
    ensures var hs := HitTimes(last, frames);
      (|hs| > 0 ==> hs[0] > last + Cooldown) &&
      forall k :: 0 <= k < |hs| - 1 ==> hs[k + 1] > hs[k] + Cooldown
    decreases |frames|
  {
    if frames != [] {
      if Hits(frames[0].dist, frames[0].now, last) {
        HitsSpacedByCooldown(frames[0].now, frames[1..]);
        var hs := HitTimes(last, frames);
        var rest := HitTimes(frames[0].now, frames[1..]);
        assert hs == [frames[0].now] + rest;
        forall k | 0 <= k < |hs| - 1
          ensures hs[k + 1] > hs[k] + Cooldown
        {
          if k > 0 {
            assert hs[k] == rest[k - 1] && hs[k + 1] == rest[k];
          }
        }
      } else {
        HitsSpacedByCooldown(last, frames[1..]);
      }
    }
  }

  class Pursuer {
    const initialPos: V3
    /** Last values delivered by the body's position and velocity feeds. */
    var pos: V3
    var velocity: V3
    var lastDamageTime: int

    constructor (p: V3)
      ensures initialPos == p && pos == p && velocity == Zero && lastDamageTime == 0
    {
      initialPos := p;
      pos, velocity, lastDamageTime := p, Zero, 0;
    }

    method OnPosition(p: V3)
      modifies this`pos
      ensures pos == p
    {
      pos := p;
    }

    method OnVelocity(v: V3)
      modifies this`velocity
      ensures velocity == v
    {
      velocity := v;
    }

    /** One frame, given the observer distance, the normalised direction
        toward the observer and the clock; returns the commands sent to the
        body, in order. */
    method OnFrame(store: GameStore.Store, dist: real, dir: V3, now: int) returns (cmds: seq<Command>)
      modifies this`lastDamageTime, store
      ensures !old(store.isPlaying) || old(store.hp) <= 0.0 ==>
        cmds == [SetVelocity(Zero)] && lastDamageTime == old(lastDamageTime) &&
        store.Snapshot() == old(store.Snapshot())
      ensures old(store.isPlaying) && old(store.hp) > 0.0 ==>
        && cmds == [SetVelocity(ChaseVelocity(dist, dir, velocity.y))] +
                   (if pos.y < FallDepth then [SetPosition(initialPos), SetVelocity(Zero)] else [])
        && (Hits(dist, now, old(lastDamageTime)) ==>
              lastDamageTime == now &&
              store.Snapshot() == old(store.Snapshot()).(hp := GameStore.SubFloored(old(store.hp), HitDamage)))
        && (!Hits(dist, now, old(lastDamageTime)) ==>
              lastDamageTime == old(lastDamageTime) && store.Snapshot() == old(store.Snapshot()))
      // the velocity the body keeps: zero after a fall or when the game has
      // stopped, the chase velocity otherwise
      ensures FinalVelocity(cmds, velocity) ==
        if old(store.isPlaying) && old(store.hp) > 0.0 && pos.y >= FallDepth
        then ChaseVelocity(dist, dir, velocity.y) else Zero
    {
      if !store.isPlaying || store.hp <= 0.0 {
        cmds := [SetVelocity(Zero)];
        return;
      }
      if dist < ChaseRadius {
        cmds := [SetVelocity(V3(dir.x * ChaseSpeed, velocity.y, dir.z * ChaseSpeed))];
      } else {
        cmds := [SetVelocity(V3(0.0, velocity.y, 0.0))];
      }
      if pos.y < FallDepth {
        cmds := cmds + [SetPosition(initialPos), SetVelocity(Zero)];
      }
      if dist < ContactRange && now - lastDamageTime > Cooldown {
        store.Damage(HitDamage);
        lastDamageTime := now;
      }
    }
  }

  /** The last velocity command of a frame is the one the body keeps: after a
      fall it is zero, overriding the chase. */
  function FinalVelocity(cmds: seq<Command>, current: V3): V3
    decreases |cmds|
  {
    if cmds == [] then current
    else if cmds[|cmds| - 1].SetVelocity? then cmds[|cmds| - 1].v
    else FinalVelocity(cmds[..|cmds| - 1], current)
  }

  lemma FallOverridesChase(v: V3, p: V3, current: V3)
    ensures FinalVelocity([SetVelocity(v), SetPosition(p), SetVelocity(Zero)], current) == Zero
    ensures FinalVelocity([SetVelocity(v)], current) == v
  {
  }
}
