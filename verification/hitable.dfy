/**
 * The HP bookkeeping of a training target: HP starts full and every change
 * is clamped into `[0, maxHP]`.
 */
module Hitable {
  datatype HitableObject = HitableObject(maxHP: real, currentHP: real)

  const DefaultMaxHP: real := 100.0

  predicate Valid(h: HitableObject)
  {
    0.0 <= h.currentHP <= h.maxHP
  }

  /** `Mathf.Clamp`: below the lower bound gives the lower bound, else above the upper gives the upper. */
  function Clamp(value: real, lo: real, hi: real): real
  {
    if value < lo then lo else if value > hi then hi else value
  }

  /** Initialisation: HP starts at the maximum. */
  function Start(maxHP: real): (h: HitableObject)
    ensures h.maxHP == maxHP && h.currentHP == maxHP
    ensures maxHP >= 0.0 ==> Valid(h)
  {
    HitableObject(maxHP, maxHP)
  }

  /** Adds `amount` (negative for damage) and clamps the result into `[0, maxHP]`. */
  function ChangeHP(h: HitableObject, amount: real): (r: HitableObject)
    ensures r.maxHP == h.maxHP
    ensures h.maxHP >= 0.0 ==> Valid(r)
    ensures h.maxHP >= 0.0 && h.currentHP + amount <= 0.0 ==> r.currentHP == 0.0
    ensures h.maxHP >= 0.0 && h.currentHP + amount >= h.maxHP ==> r.currentHP == h.maxHP
    ensures 0.0 <= h.currentHP + amount <= h.maxHP ==> r.currentHP == h.currentHP + amount
  {
    h.(currentHP := Clamp(h.currentHP + amount, 0.0, h.maxHP))
  }

  /** Reading the HP: the stored value, within bounds for a valid object. */
  function GetCurrentHP(h: HitableObject): (hp: real)
    ensures Valid(h) ==> 0.0 <= hp <= h.maxHP
  {
    h.currentHP
  }

  /** Two successive hits on a valid object leave what one hit of their summed damage leaves. */
  lemma DamageAccumulates(h: HitableObject, a: real, b: real)
    requires Valid(h) && a >= 0.0 && b >= 0.0
    ensures ChangeHP(ChangeHP(h, -a), -b) == ChangeHP(h, -(a + b))
  {
  }

  /** `n` hits of `damage` each leave what one hit of `n * damage` leaves: `max(HP - n * damage, 0)`. */
  lemma {:induction false} RepeatedDamage(h: HitableObject, damage: real, n: nat)
    requires Valid(h) && damage >= 0.0
    ensures RepeatHit(h, damage, n) == ChangeHP(h, -Times(n, damage))
    ensures Valid(RepeatHit(h, damage, n))
    decreases n
  {
    if n > 0 {
      RepeatedDamage(h, damage, n - 1);
      TimesNonNegative(n - 1, damage);
      DamageAccumulates(h, Times(n - 1, damage), damage);
    }
  }

  /** `n * d` written as repeated addition. */
  function Times(n: nat, d: real): real
  {
    if n == 0 then 0.0 else Times(n - 1, d) + d
  }

  lemma {:induction false} TimesNonNegative(n: nat, d: real)
    requires d >= 0.0
    ensures Times(n, d) >= 0.0
  {
    if n > 0 {
      TimesNonNegative(n - 1, d);
    }
  }

  /** `n` successive `ChangeHP(-damage)` calls. */
  function RepeatHit(h: HitableObject, damage: real, n: nat): HitableObject
  {
    if n == 0 then h else ChangeHP(RepeatHit(h, damage, n - 1), -damage)
  }
}
