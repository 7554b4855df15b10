/**
 * Which punch an attack uses. Grounded attacks index the regular or heavy
 * table by the combo counter, clamped to the last entry; airborne light
 * attacks always use the first regular punch; airborne heavy attacks pick a
 * heavy punch by the sign of the air-aiming value alone.
 */
module MoveSelection {
  import opened Punches
  import opened PunchData

  /** `Mathf.Min(counter, length - 1)`: a combo counter clamped onto a table of `length` entries. */
  function ClampIndex(counter: nat, length: nat): (i: nat)
    requires length >= 1
    ensures i < length
    ensures i <= counter
    ensures i == counter || i == length - 1
    ensures counter >= length - 1 ==> i == length - 1
  {
    if counter < length - 1 then counter else length - 1
  }

  /** Heavy-table entry of an airborne heavy attack: up aims use 0, down aims 1, neutral 2. */
  function AirHeavyIndex(airAiming: int): (i: nat)
    ensures i < 3
    ensures i == 0 <==> airAiming > 0
    ensures i == 1 <==> airAiming < 0
  {
    if airAiming > 0 then 0 else if airAiming < 0 then 1 else 2
  }

  /** The punch selected for an attack from the fighter's state at that moment. */
  function Select(d: Directions, grounded: bool, heavy: bool, comboCounter: nat, airAiming: int): (p: Punch)
    ensures p in Table(d, heavy)
    ensures WellTimed(p)
    ensures heavy <==> p.damage > 15.0
  {
    if grounded then
      if heavy then HeavyPunches(d)[ClampIndex(comboCounter, |HeavyPunches(d)|)]
      else RegularPunches(d)[ClampIndex(comboCounter, |RegularPunches(d)|)]
    else if heavy then
      HeavyPunches(d)[AirHeavyIndex(airAiming)]
    else
      RegularPunches(d)[0]
  }

  /**
   * The damage the hit applies. The hit code repeats the selection instead
   * of calling it; this copy agrees with `Select` on every input.
   */
  function HitDamage(d: Directions, grounded: bool, heavy: bool, comboCounter: nat, airAiming: int): (damage: real)
    ensures damage == Select(d, grounded, heavy, comboCounter, airAiming).damage
  {
    if grounded then
      if heavy then HeavyPunches(d)[ClampIndex(comboCounter, |HeavyPunches(d)|)].damage
      else RegularPunches(d)[ClampIndex(comboCounter, |RegularPunches(d)|)].damage
    else if heavy then
      if airAiming > 0 then HeavyPunches(d)[0].damage
      else if airAiming < 0 then HeavyPunches(d)[1].damage
      else HeavyPunches(d)[2].damage
    else
      RegularPunches(d)[0].damage
  }

  /** A grounded attack uses entry `min(comboCounter, 2)` of its table. */
  lemma GroundedUsesClampedIndex(d: Directions, heavy: bool, comboCounter: nat, airAiming: int)
    ensures Select(d, true, heavy, comboCounter, airAiming)
         == Table(d, heavy)[if comboCounter < 2 then comboCounter else 2]
  {
  }

  /** Any combo counter at or past the last index selects the same punch as the last index. */
  lemma CounterPastEndSelectsLast(d: Directions, heavy: bool, comboCounter: nat, airAiming: int, otherAim: int)
    requires comboCounter >= 2
    ensures Select(d, true, heavy, comboCounter, airAiming) == Select(d, true, heavy, 2, otherAim)
  {
  }

  /** An airborne light attack always uses the first regular punch, whatever the combo and aim. */
  lemma AirLightAlwaysFirst(d: Directions, comboCounter: nat, airAiming: int)
    ensures Select(d, false, false, comboCounter, airAiming) == RegularPunches(d)[0]
  {
  }

  /** An airborne heavy attack is chosen by the sign of the aim alone, never by the combo counter. */
  lemma AirHeavyBySignOnly(d: Directions, c1: nat, c2: nat, a1: int, a2: int)
    requires (a1 > 0 && a2 > 0) || (a1 < 0 && a2 < 0) || (a1 == 0 && a2 == 0)
    ensures Select(d, false, true, c1, a1) == Select(d, false, true, c2, a2)
    ensures a1 > 0 ==> Select(d, false, true, c1, a1) == HeavyPunches(d)[0]
    ensures a1 < 0 ==> Select(d, false, true, c1, a1) == HeavyPunches(d)[1]
    ensures a1 == 0 ==> Select(d, false, true, c1, a1) == HeavyPunches(d)[2]
  {
  }
}
