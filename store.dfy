/** The global game-state store: one record whose fields each action
    overwrites. Survival stats are clamped into their pools. */
module GameStore {
  import opened Geometry

  /** The whole store as a value, so that each action can state its
      complete new state and "nothing else changes". */
  datatype State = State(
    isPlaying: bool,
    isMenuOpen: bool,
    volume: real,
    hp: real,
    maxHp: real,
    stamina: real,
    maxStamina: real,
    currentLevel: int,
    isLoading: bool,
    panicLevel: real)

  const Initial := State(false, false, 0.5, 100.0, 100.0, 100.0, 100.0, 0, false, 0.0)

  /** `Math.min(v + amount, max)`: adding to a pool never overshoots its maximum. */
  function AddCapped(v: real, amount: real, max: real): (r: real)
    ensures r <= max
    ensures v + amount <= max ==> r == v + amount
    ensures v + amount > max ==> r == max
    ensures amount >= 0.0 && v <= max ==> v <= r
  {
    Min(v + amount, max)
  }

  /** `Math.max(v - amount, 0)`: taking from a pool never goes below empty. */
  function SubFloored(v: real, amount: real): (r: real)
    ensures r >= 0.0
    ensures v - amount >= 0.0 ==> r == v - amount
    ensures v - amount < 0.0 ==> r == 0.0
    ensures amount >= 0.0 && v >= 0.0 ==> r <= v
  {
    Max(v - amount, 0.0)
  }

  /** Both pools lie within [0, max]. */
  predicate InPools(s: State)
  {
    0.0 <= s.hp <= s.maxHp && 0.0 <= s.stamina <= s.maxStamina
  }

  lemma InitialInPools()
    ensures InPools(Initial)
    ensures Initial.hp == Initial.maxHp == 100.0 && Initial.stamina == Initial.maxStamina == 100.0
  {
  }

  class Store {
    var isPlaying: bool
    var isMenuOpen: bool
    var volume: real
    var hp: real
    var maxHp: real
    var stamina: real
    var maxStamina: real
    var currentLevel: int
    var isLoading: bool
    var panicLevel: real

    function Snapshot(): State
      reads this
    {
      State(isPlaying, isMenuOpen, volume, hp, maxHp, stamina, maxStamina, currentLevel, isLoading, panicLevel)
    }

    ghost predicate Valid()
      reads this
    {
      InPools(Snapshot())
    }

    constructor ()
      ensures Snapshot() == Initial
      ensures Valid()
    {
      isPlaying, isMenuOpen, volume := false, false, 0.5;
      hp, maxHp, stamina, maxStamina := 100.0, 100.0, 100.0, 100.0;
      currentLevel, isLoading, panicLevel := 0, false, 0.0;
    }

    method SetIsPlaying(b: bool)
      modifies this
      ensures Snapshot() == old(Snapshot()).(isPlaying := b)
    {
      isPlaying := b;
    }

    method SetIsMenuOpen(b: bool)
      modifies this
      ensures Snapshot() == old(Snapshot()).(isMenuOpen := b)
    {
      isMenuOpen := b;
    }

    method SetVolume(v: real)
      modifies this
      ensures Snapshot() == old(Snapshot()).(volume := v)
    {
      volume := v;
    }

    method ToggleMenu()
      modifies this
      ensures Snapshot() == old(Snapshot()).(isMenuOpen := !old(isMenuOpen))
    {
      isMenuOpen := !isMenuOpen;
    }

    /** `setHp` writes the value unclamped. */
    method SetHp(v: real)
      modifies this
      ensures Snapshot() == old(Snapshot()).(hp := v)
    {
      hp := v;
    }

    /** `setStamina` writes the value unclamped. */
    method SetStamina(v: real)
      modifies this
      ensures Snapshot() == old(Snapshot()).(stamina := v)
    {
      stamina := v;
    }

    method Heal(amount: real)
      modifies this
      ensures Snapshot() == old(Snapshot()).(hp := AddCapped(old(hp), amount, old(maxHp)))
      ensures old(Valid()) && amount >= 0.0 ==> Valid() && hp >= old(hp)
    {
      hp := Min(hp + amount, maxHp);
    }

    method Damage(amount: real)
      modifies this
      ensures Snapshot() == old(Snapshot()).(hp := SubFloored(old(hp), amount))
      ensures old(Valid()) && amount >= 0.0 ==> Valid() && hp <= old(hp)
    {
      hp := Max(hp - amount, 0.0);
    }

    method ConsumeStamina(amount: real)
      modifies this
      ensures Snapshot() == old(Snapshot()).(stamina := SubFloored(old(stamina), amount))
      ensures old(Valid()) && amount >= 0.0 ==> Valid() && stamina <= old(stamina)
    {
      stamina := Max(stamina - amount, 0.0);
    }

    method RecoverStamina(amount: real)
      modifies this
      ensures Snapshot() == old(Snapshot()).(stamina := AddCapped(old(stamina), amount, old(maxStamina)))
      ensures old(Valid()) && amount >= 0.0 ==> Valid() && stamina >= old(stamina)
    {
      stamina := Min(stamina + amount, maxStamina);
    }

    /** Entering a level stops play and refills the pools; the maximums,
        menu, volume and loading flag are kept. */
    method SetLevel(level: int)
      modifies this
      ensures Snapshot() == old(Snapshot()).(currentLevel := level, isPlaying := false,
                                             hp := 100.0, stamina := 100.0, panicLevel := 0.0)
    {
      currentLevel, isPlaying, hp, stamina, panicLevel := level, false, 100.0, 100.0, 0.0;
    }

    method SetIsLoading(b: bool)
      modifies this
      ensures Snapshot() == old(Snapshot()).(isLoading := b)
    {
      isLoading := b;
    }

    method SetPanicLevel(p: real)
      modifies this
      ensures Snapshot() == old(Snapshot()).(panicLevel := p)
    {
      panicLevel := p;
    }
  }

  /** Toggling the menu twice restores the whole store. */
  method ToggleMenuTwice(s: Store)
    modifies s
    ensures s.Snapshot() == old(s.Snapshot())
  {
    s.ToggleMenu();
    s.ToggleMenu();
  }
}
