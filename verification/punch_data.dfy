/**
 * The static move catalog: three regular and three heavy punches. The
 * catalog gives no knockback directions, so they are an abstract parameter.
 */
module PunchData {
  import opened Geometry
  import opened Punches

  /** Knockback directions for the six catalog entries (not given by the catalog itself). */
  datatype Directions = Directions(r0: Vec2, r1: Vec2, r2: Vec2, h0: Vec2, h1: Vec2, h2: Vec2)

  function RegularPunches(d: Directions): seq<Punch>
  {
    [ NewPunch(15.0, 0.33, 0.17, d.r0),
      NewPunch(15.0, 0.43, 0.17, d.r1),
      NewPunch(15.0, 0.4, 0.17, d.r2) ]
  }

  function HeavyPunches(d: Directions): seq<Punch>
  {
    [ NewPunch(30.0, 1.05, 0.47, d.h0),
      NewPunch(35.0, 1.35, 0.47, d.h1),
      NewPunch(40.0, 1.35, 0.47, d.h2) ]
  }

  /** The table of the given strength. */
  function Table(d: Directions, heavy: bool): seq<Punch>
  {
    if heavy then HeavyPunches(d) else RegularPunches(d)
  }

  /** Both tables have exactly three entries, so index 2 is the last one. */
  lemma TablesHaveThreeEntries(d: Directions, heavy: bool)
    ensures |Table(d, heavy)| == 3
  {
  }

  /** Every entry's hit fires strictly after it starts and strictly before its cooldown ends. */
  lemma EveryEntryWellTimed(d: Directions, heavy: bool, i: int)
    requires 0 <= i < |Table(d, heavy)|
    ensures WellTimed(Table(d, heavy)[i])
  {
  }

  /** All regular punches deal 15 damage and hit 0.17 s after they start. */
  lemma RegularPunchesUniform(d: Directions, i: int)
    requires 0 <= i < |RegularPunches(d)|
    ensures RegularPunches(d)[i].damage == 15.0
    ensures RegularPunches(d)[i].hitSecond == 0.17
  {
  }

  /** Heavy damage strictly increases with the index: 30 < 35 < 40. */
  lemma HeavyDamageIncreasing(d: Directions, i: int, j: int)
    requires 0 <= i < j < |HeavyPunches(d)|
    ensures HeavyPunches(d)[i].damage < HeavyPunches(d)[j].damage
  {
  }

  /** Every heavy entry deals more damage and lasts longer than every regular entry. */
  lemma HeavyDominatesRegular(d: Directions, i: int, j: int)
    requires 0 <= i < |HeavyPunches(d)| && 0 <= j < |RegularPunches(d)|
    ensures HeavyPunches(d)[i].damage > RegularPunches(d)[j].damage
    ensures HeavyPunches(d)[i].duration > RegularPunches(d)[j].duration
  {
  }
}
