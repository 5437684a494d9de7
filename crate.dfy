/** A breakable supply crate: one collision above an impact speed of 5, or a
    click, breaks it once; breaking may drop an almond-water bottle or a can
    of food, which then appears slightly below where the crate stood. */
module Crates {
  import opened Geometry
  import Pickups

  datatype Drop = Water | Food

  /** The drop table over one draw r in [0, 1): water below 0.3, food below
      0.6, nothing otherwise. */
  function DropFor(rand: real): (d: Option<Drop>)
    ensures d == Some(Water) <==> rand < 0.3
    ensures d == Some(Food) <==> 0.3 <= rand < 0.6
    ensures d == None <==> rand >= 0.6
  {
    if rand < 0.3 then Some(Water)
    else if rand < 0.6 then Some(Food)
    else None
  }

  function PickupKind(d: Drop): Pickups.Kind
  {
    match d
    case Water => Pickups.AlmondWater
    case Food => Pickups.CannedFood
  }

  /** What the crate component renders. */
  datatype Element = CrateBody(at: V3) | DroppedPickup(kind: Pickups.Kind, at: V3)

  /** Impact speeds strictly above this break the crate. */
  const BreakImpact := 5.0

  class Crate {
    const position: V3
    var isBroken: bool
    var droppedItem: Option<Drop>

    constructor (p: V3)
      ensures position == p && !isBroken && droppedItem == None
    {
      position := p;
      isBroken, droppedItem := false, None;
    }

    /** An intact crate has dropped nothing. */
    ghost predicate Valid()
      reads this
    {
      !isBroken ==> droppedItem == None
    }

    /** The rendered children: the crate body while intact, and the dropped
        item, 0.2 below the crate, once broken. */
    function Rendered(): (r: seq<Element>)
      reads this
      ensures CrateBody(position) in r <==> !isBroken
      ensures forall e :: e in r && e.DroppedPickup? ==>
        isBroken && droppedItem.Some? && e == DroppedPickup(PickupKind(droppedItem.value), V3(position.x, position.y - 0.2, position.z))
      ensures isBroken && droppedItem.Some? ==>
        DroppedPickup(PickupKind(droppedItem.value), V3(position.x, position.y - 0.2, position.z)) in r
      ensures |r| <= 1
    {
      if !isBroken then [CrateBody(position)]
      else if droppedItem.Some? then [DroppedPickup(PickupKind(droppedItem.value), V3(position.x, position.y - 0.2, position.z))]
      else []
    }

    /** Breaks the crate once, drawing `rand` for the drop; a broken crate
        ignores further calls. */
    method BreakCrate(rand: real)
      modifies this
      ensures old(isBroken) ==> unchanged(this)
      ensures !old(isBroken) ==>
        isBroken && droppedItem == (if DropFor(rand).Some? then DropFor(rand) else old(droppedItem))
      ensures old(Valid()) ==> Valid()
    {
      if isBroken {
        return;
      }
      isBroken := true;
      if rand < 0.3 {
        droppedItem := Some(Water);
      } else if rand < 0.6 {
        droppedItem := Some(Food);
      }
    }

    /** The collision handler: only an intact crate hit faster than 5 breaks. */
    method OnCollide(impactVelocity: real, rand: real)
      modifies this
      ensures old(isBroken) || impactVelocity <= BreakImpact ==> unchanged(this)
      ensures !old(isBroken) && impactVelocity > BreakImpact ==>
        isBroken && droppedItem == (if DropFor(rand).Some? then DropFor(rand) else old(droppedItem))
    {
      if !isBroken && impactVelocity > BreakImpact {
        BreakCrate(rand);
      }
    }
  }

  /** Breaking twice is breaking once, whatever the second draw. */
  method BreakTwice(c: Crate, r1: real, r2: real)
    modifies c
    ensures c.isBroken
    ensures !old(c.isBroken) && old(c.Valid()) ==> c.droppedItem == DropFor(r1)
  {
    c.BreakCrate(r1);
    ghost var once := c.droppedItem;
    c.BreakCrate(r2);
    assert c.droppedItem == once;
  }
}
