/**
 * The move record of the fighter: how much damage a punch deals, how long
 * it keeps the attacker busy and when, after it starts, its hit is applied.
 * The hit code also reads a knockback `direction`, which the record in the
 * repository never declares; it is carried here as an extra field.
 */
module Punches {
  import opened Geometry

  datatype Punch = Punch(damage: real, duration: real, hitSecond: real, direction: Vec2)

  /** The hit of a well-timed punch lands strictly inside its active time. */
  predicate WellTimed(p: Punch)
  {
    0.0 < p.hitSecond < p.duration
  }

  /** The record's constructor: every argument is stored as given, with no validation. */
  function NewPunch(damage: real, duration: real, hitSecond: real, direction: Vec2): (p: Punch)
    ensures p.damage == damage
    ensures p.duration == duration
    ensures p.hitSecond == hitSecond
    ensures p.direction == direction
  {
    Punch(damage, duration, hitSecond, direction)
  }

  /** Nothing stops the constructor from building a punch whose hit comes after its end. */
  lemma NewPunchDoesNotValidate(direction: Vec2)
    ensures !WellTimed(NewPunch(-1.0, 0.1, 0.5, direction))
    ensures NewPunch(-1.0, 0.1, 0.5, direction).damage < 0.0
  {
  }
}
