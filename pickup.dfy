/** The proximity-gated pickup tracker shared by the almond-water bottle
    and the canned food: progress accumulates by the frame time while the
    observer is in range, resets when the observer leaves, and reaching the
    threshold applies the item's effect once and hides the item. */
module Pickups {
  import opened Geometry
  import GameStore

  datatype Kind = AlmondWater | CannedFood

  /** Pickup radius: the observer must be strictly closer than this. */
  function Radius(k: Kind): real
  {
    match k
    case AlmondWater => 2.0
    case CannedFood => 2.5
  }

  /** Seconds in range needed to pick the item up. */
  function Threshold(k: Kind): real
  {
    match k
    case AlmondWater => 1.0
    case CannedFood => 1.2
  }

  function HealAmount(k: Kind): real
  {
    match k
    case AlmondWater => 30.0
    case CannedFood => 50.0
  }

  function StaminaAmount(k: Kind): real
  {
    match k
    case AlmondWater => 100.0
    case CannedFood => 50.0
  }

  datatype PickupState = PickupState(visible: bool, progress: real)

  const Fresh := PickupState(true, 0.0)

  /** The outcome of one frame: the next state, and whether the effect fired. */
  datatype Step = Step(next: PickupState, consumed: bool)

  /** One frame of the tracker, given the observer distance and the frame time. */
  function Tick(k: Kind, s: PickupState, dist: real, delta: real): (r: Step)
    ensures !s.visible ==> r == Step(s, false)
    ensures r.consumed <==> s.visible && dist < Radius(k) && s.progress + delta >= Threshold(k)
    ensures r.consumed ==> !r.next.visible
    ensures s.visible && !r.consumed ==> r.next.visible
    ensures s.visible && dist < Radius(k) && !r.consumed ==> r.next.progress == s.progress + delta
    ensures s.visible && dist >= Radius(k) && s.progress >= 0.0 ==> r.next.progress == 0.0
  {
    if !s.visible then Step(s, false)
    else if dist < Radius(k) then
      var nextProgress := s.progress + delta;
      if nextProgress >= Threshold(k) then Step(s.(visible := false), true)
      else Step(s.(progress := nextProgress), false)
    else if s.progress > 0.0 then Step(s.(progress := 0.0), false)
    else Step(s, false)
  }

  /** While visible, stored progress stays in [0, threshold). */
  predicate ProgressInRange(k: Kind, s: PickupState)
  {
    s.visible ==> 0.0 <= s.progress < Threshold(k)
  }

  lemma TickKeepsProgressInRange(k: Kind, s: PickupState, dist: real, delta: real)
    requires ProgressInRange(k, s)
    requires delta >= 0.0
    ensures ProgressInRange(k, Tick(k, s, dist, delta).next)
  {
  }

  /** A frame as seen by the tracker: observer distance and frame time. */
  datatype Frame = Frame(dist: real, delta: real)

  /** Runs the tracker over a sequence of frames: the final state and the
      number of frames in which the effect fired. */
  function Run(k: Kind, s: PickupState, frames: seq<Frame>): (PickupState, nat)
    decreases |frames|
  {
    if frames == [] then (s, 0)
    else
      var step := Tick(k, s, frames[0].dist, frames[0].delta);
      var rest := Run(k, step.next, frames[1..]);
      (rest.0, rest.1 + (if step.consumed then 1 else 0))
  }

  /** Once hidden, an item stays hidden and never fires again. */
  lemma {:induction false} HiddenStaysInert(k: Kind, s: PickupState, frames: seq<Frame>)
    requires !s.visible
    ensures Run(k, s, frames) == (s, 0)
    decreases |frames|
  {
    if frames != [] {
      HiddenStaysInert(k, s, frames[1..]);
    }
  }

  /** The effect fires at most once over any run, and never from a hidden item. */
  lemma {:induction false} EffectAtMostOnce(k: Kind, s: PickupState, frames: seq<Frame>)
    ensures Run(k, s, frames).1 <= (if s.visible then 1 else 0)
    ensures Run(k, s, frames).1 == 1 ==> !Run(k, s, frames).0.visible
    decreases |frames|
  {
    if frames == [] {
    } else if !s.visible {
      HiddenStaysInert(k, s, frames);
    } else {
      var step := Tick(k, s, frames[0].dist, frames[0].delta);
      if step.consumed {
        HiddenStaysInert(k, step.next, frames[1..]);
      } else {
        EffectAtMostOnce(k, step.next, frames[1..]);
      }
    }
  }

  function TotalTime(frames: seq<Frame>): real
    decreases |frames|
  {
    if frames == [] then 0.0 else frames[0].delta + TotalTime(frames[1..])
  }

  predicate AllInRange(k: Kind, frames: seq<Frame>)
  {
    forall i :: 0 <= i < |frames| ==> frames[i].dist < Radius(k) && frames[i].delta >= 0.0
  }

  /** Staying in range, with total frame time reaching the remaining time,
      fires the effect exactly once. */
  lemma {:induction false} StayingPicksUpOnce(k: Kind, s: PickupState, frames: seq<Frame>)
    requires s.visible && 0.0 <= s.progress < Threshold(k)
    requires AllInRange(k, frames)
    requires s.progress + TotalTime(frames) >= Threshold(k)
    ensures Run(k, s, frames).1 == 1
    ensures !Run(k, s, frames).0.visible
    decreases |frames|
  {
    if frames == [] {
      assert false;
    }
    var step := Tick(k, s, frames[0].dist, frames[0].delta);
    assert frames[0].dist < Radius(k) && frames[0].delta >= 0.0;
    if step.consumed {
      HiddenStaysInert(k, step.next, frames[1..]);
    } else {
      assert AllInRange(k, frames[1..]) by {
        forall i | 0 <= i < |frames[1..]|
          ensures frames[1..][i].dist < Radius(k) && frames[1..][i].delta >= 0.0
        {
          assert frames[1..][i] == frames[i + 1];
        }
      }
      StayingPicksUpOnce(k, step.next, frames[1..]);
    }
  }

  /** Leaving the radius discards partial progress: the run that follows a
      departure behaves exactly as a run of a freshly placed item. */
  lemma LeavingRestartsFromZero(k: Kind, s: PickupState, away: Frame, frames: seq<Frame>)
    requires s.visible && 0.0 <= s.progress < Threshold(k)
    requires away.dist >= Radius(k)
    ensures Tick(k, s, away.dist, away.delta) == Step(Fresh, false)
    ensures Run(k, s, [away] + frames) == Run(k, Fresh, frames)
  {
    assert ([away] + frames)[1..] == frames;
  }

  /** A pickup item in the world. */
  class Pickup {
    const kind: Kind
    const position: V3
    var visible: bool
    var progress: real

    constructor (k: Kind, p: V3)
      ensures kind == k && position == p
      ensures visible && progress == 0.0
    {
      kind, position := k, p;
      visible, progress := true, 0.0;
    }

    function State(): PickupState
      reads this
    {
      PickupState(visible, progress)
    }

    ghost predicate Valid()
      reads this
    {
      ProgressInRange(kind, State())
    }

    /** The per-frame update: the item's new state follows `Tick`, and the
        store receives the heal and the stamina recovery exactly when the
        effect fires. */
    method OnFrame(store: GameStore.Store, dist: real, delta: real)
      modifies this, store
      ensures State() == Tick(kind, old(State()), dist, delta).next
      ensures Tick(kind, old(State()), dist, delta).consumed ==>
        store.Snapshot() == old(store.Snapshot()).(
          hp := GameStore.AddCapped(old(store.hp), HealAmount(kind), old(store.maxHp)),
          stamina := GameStore.AddCapped(old(store.stamina), StaminaAmount(kind), old(store.maxStamina)))
      ensures !Tick(kind, old(State()), dist, delta).consumed ==> store.Snapshot() == old(store.Snapshot())
      ensures old(Valid()) && delta >= 0.0 ==> Valid()
    {
      if !visible {
        return;
      }
      if dist < Radius(kind) {
        var nextProgress := progress + delta;
        if nextProgress >= Threshold(kind) {
          store.Heal(HealAmount(kind));
          store.RecoverStamina(StaminaAmount(kind));
          visible := false;
        } else {
          progress := nextProgress;
        }
      } else {
        if progress > 0.0 {
          progress := 0.0;
        }
      }
    }
  }
}
