/** The first-person player body: spawn choice, fall recovery, the
    walk/run/fatigue rule with its stamina bookkeeping, and the jump
    cooldown. Key capture, camera and vector math are outside the model:
    a frame receives the already normalised horizontal movement direction. */
module PlayerControl {
  import opened Geometry
  import GameStore

  const WalkSpeed := 5.0
  const RunSpeed := 16.0
  const JumpForce := 5.0
  const StaminaDrain := 0.5
  const StaminaRegen := 0.3
  const FatigueRecoveryThreshold := 30.0
  /** Milliseconds that must pass between two jumps. */
  const JumpCooldown := 700
  /** Below this height the body is put back at `Respawn`. */
  const FallDepth := -15.0
  const Respawn := V3(0.0, 5.0, 0.0)

  /** Where the player body is created: the level's spawn anchor, or on
      level 1 a point drawn uniformly from [10, 70) on each horizontal axis. */
  function SpawnPosition(level: int, r1: real, r2: real): (p: V3)
    requires 0.0 <= r1 < 1.0 && 0.0 <= r2 < 1.0
    ensures level != 1 ==> p == V3(4.5, 2.0, 4.5)
    ensures level == 1 ==> p.y == 2.0 && 10.0 <= p.x < 70.0 && 10.0 <= p.z < 70.0
  {
    if level == 1 then V3(r1 * 60.0 + 10.0, 2.0, r2 * 60.0 + 10.0) else V3(4.5, 2.0, 4.5)
  }

  /** The decision of one frame: speed, whether stamina is drained or
      regenerated, and the new fatigue flag. */
  datatype Exertion = Exertion(speed: real, drain: bool, regen: bool, fatigued: bool)

  /** The speed, stamina and fatigue rule, from the stamina read at the
      start of the frame. */
  function Exert(moving: bool, run: bool, fatigued: bool, stamina: real, maxStamina: real): (e: Exertion)
    ensures e.speed == RunSpeed <==> moving && run && !fatigued && stamina > 0.0
    ensures e.speed == RunSpeed || e.speed == WalkSpeed
    ensures e.drain <==> e.speed == RunSpeed
    ensures e.drain ==> !e.regen && (e.fatigued <==> stamina <= StaminaDrain * 2.0)
    ensures moving && run && !fatigued && stamina <= 0.0 ==> e.fatigued && !e.drain && !e.regen
    ensures !(moving && run && !fatigued) ==>
      !e.drain && (e.regen <==> stamina < maxStamina) &&
      (e.fatigued <==> fatigued && stamina <= FatigueRecoveryThreshold)
  {
    if moving && run && !fatigued then
      if stamina > 0.0 then Exertion(RunSpeed, true, false, stamina <= StaminaDrain * 2.0)
      else Exertion(WalkSpeed, false, false, true)
    else
      Exertion(WalkSpeed, false, stamina < maxStamina, fatigued && !(stamina > FatigueRecoveryThreshold))
  }

  /** A fatigued player stays fatigued until stamina is above 30, and cannot
      run meanwhile. */
  lemma FatigueBlocksRunning(moving: bool, run: bool, stamina: real, maxStamina: real)
    requires stamina <= FatigueRecoveryThreshold
    ensures Exert(moving, run, true, stamina, maxStamina).speed == WalkSpeed
    ensures Exert(moving, run, true, stamina, maxStamina).fatigued
  {
  }

  /** A jump fires only when grounded (|vy| < 0.15) and after the cooldown. */
  predicate JumpAllowed(jump: bool, vy: real, now: int, lastJump: int)
  {
    jump && Abs(vy) < 0.15 && now - lastJump > JumpCooldown
  }

  /** The fall-recovery commands issued at the start of a frame. */
  function FallRecovery(pos: V3): (cmds: seq<Command>)
    ensures pos.y < FallDepth ==> cmds == [SetPosition(Respawn), SetVelocity(Zero)]
    ensures pos.y >= FallDepth ==> cmds == []
  {
    if pos.y < FallDepth then [SetPosition(Respawn), SetVelocity(Zero)] else []
  }

  class Player {
    var isFatigued: bool
    var isGrounded: bool
    var lastJumpTime: int
    /** Last values delivered by the body's velocity and position feeds. */
    var velocity: V3
    var pos: V3

    constructor ()
      ensures !isFatigued && !isGrounded && lastJumpTime == 0
      ensures velocity == Zero && pos == Zero
    {
      isFatigued, isGrounded, lastJumpTime := false, false, 0;
      velocity, pos := Zero, Zero;
    }

    method OnVelocity(v: V3)
      modifies this`velocity
      ensures velocity == v
    {
      velocity := v;
    }

    method OnPosition(p: V3)
      modifies this`pos
      ensures pos == p
    {
      pos := p;
    }

    /** One frame: returns the commands sent to the body, in order. */
    method OnFrame(store: GameStore.Store, dir: V3, run: bool, jump: bool, now: int)
      returns (cmds: seq<Command>)
      modifies this, store
      ensures velocity == old(velocity) && pos == old(pos)
      ensures isGrounded <==> Abs(velocity.y) < 0.15
      ensures !old(store.isPlaying) || old(store.hp) <= 0.0 ==>
        && cmds == FallRecovery(pos) + [SetVelocity(V3(0.0, velocity.y, 0.0))]
        && isFatigued == old(isFatigued) && lastJumpTime == old(lastJumpTime)
        && store.Snapshot() == old(store.Snapshot())
      ensures old(store.isPlaying) && old(store.hp) > 0.0 ==>
        var e := Exert(dir != Zero, run, old(isFatigued), old(store.stamina), old(store.maxStamina));
        var jumped := JumpAllowed(jump, velocity.y, now, old(lastJumpTime));
        && isFatigued == e.fatigued
        && cmds == FallRecovery(pos) + [SetVelocity(V3(dir.x * e.speed, velocity.y, dir.z * e.speed))] +
                   (if jumped then [SetVelocity(V3(velocity.x, JumpForce, velocity.z))] else [])
        && lastJumpTime == (if jumped then now else old(lastJumpTime))
        && store.Snapshot() == old(store.Snapshot()).(stamina :=
             if e.drain then GameStore.SubFloored(old(store.stamina), StaminaDrain)
             else if e.regen then GameStore.AddCapped(old(store.stamina), StaminaRegen, old(store.maxStamina))
             else old(store.stamina))
    {
      isGrounded := Abs(velocity.y) < 0.15;
      cmds := [];
      if pos.y < FallDepth {
        cmds := cmds + [SetPosition(Respawn), SetVelocity(Zero)];
      }
      if !store.isPlaying || store.hp <= 0.0 {
        cmds := cmds + [SetVelocity(V3(0.0, velocity.y, 0.0))];
        return;
      }
      var stamina, maxStamina := store.stamina, store.maxStamina;
      var currentSpeed := WalkSpeed;
      if dir != Zero && run && !isFatigued {
        if stamina > 0.0 {
          currentSpeed := RunSpeed;
          store.ConsumeStamina(StaminaDrain);
          if stamina <= StaminaDrain * 2.0 {
            isFatigued := true;
          }
        } else {
          isFatigued := true;
        }
      } else {
        if stamina < maxStamina {
          store.RecoverStamina(StaminaRegen);
        }
        if isFatigued && stamina > FatigueRecoveryThreshold {
          isFatigued := false;
        }
      }
      cmds := cmds + [SetVelocity(V3(dir.x * currentSpeed, velocity.y, dir.z * currentSpeed))];
      if jump && isGrounded && now - lastJumpTime > JumpCooldown {
        cmds := cmds + [SetVelocity(V3(velocity.x, JumpForce, velocity.z))];
        lastJumpTime := now;
      }
    }
  }
}
