/**
 * What a fired hit does to the colliders the overlap query returned.
 * `isSameObject` skips only colliders of the attack point's own game
 * object (`self`), a child of the fighter; a collider on the fighter's body
 * or on a sibling is struck like any other. Every collider not skipped
 * takes `ChangeHP(-damage)` if it has an HP component and has its velocity
 * overwritten by the knockback if it has a rigidbody.
 */
module HitResolution {
  import opened Optional
  import opened Geometry
  import opened Hitable

  /**
   * A collider in the hit circle: the game object it belongs to, its HP
   * component and its rigidbody's velocity when it has them, and the
   * normalised direction from the attack point to it (given by the physics layer).
   */
  datatype Target = Target(id: nat, hitable: Option<HitableObject>, velocity: Option<Vec2>, away: Vec2)

  /** How a hit sets a struck rigidbody's velocity: one fixed vector, or a speed away from the attack point. */
  datatype Knockback = Fixed(v: Vec2) | Radial(speed: real)

  function KnockbackVelocity(k: Knockback, t: Target): Vec2
  {
    match k
    case Fixed(v) => v
    case Radial(speed) => Scale(t.away, speed)
  }

  /** Damage first, then knockback, on one collider not of the attack point's own object. */
  function Strike(t: Target, damage: real, k: Knockback): Target
  {
    var hp := if t.hitable.Some? then Some(ChangeHP(t.hitable.value, -damage)) else None;
    var v := if t.velocity.Some? then Some(KnockbackVelocity(k, t)) else None;
    t.(hitable := hp, velocity := v)
  }

  /** One hit over the query result, collider by collider. */
  function ResolveHit(targets: seq<Target>, self: nat, damage: real, k: Knockback): (r: seq<Target>)
    ensures |r| == |targets|
    ensures forall i :: 0 <= i < |targets| && targets[i].id == self ==> r[i] == targets[i]
    ensures forall i :: 0 <= i < |targets| && targets[i].id != self ==>
              && r[i].id == targets[i].id
              && r[i].away == targets[i].away
              && (targets[i].hitable.None? ==> r[i].hitable.None?)
              && (targets[i].hitable.Some? ==> r[i].hitable == Some(ChangeHP(targets[i].hitable.value, -damage)))
              && (targets[i].velocity.None? ==> r[i].velocity.None?)
              && (targets[i].velocity.Some? ==> r[i].velocity == Some(KnockbackVelocity(k, targets[i])))
  {
    if |targets| == 0 then []
    else
      var first := if targets[0].id == self then targets[0] else Strike(targets[0], damage, k);
      [first] + ResolveHit(targets[1..], self, damage, k)
  }

  /** A query result holding only the attack point's own object yields no effect at all. */
  lemma OnlySelfHasNoEffect(targets: seq<Target>, self: nat, damage: real, k: Knockback)
    requires forall i :: 0 <= i < |targets| ==> targets[i].id == self
    ensures ResolveHit(targets, self, damage, k) == targets
  {
  }

  /** A hit keeps every HP component within its bounds and never raises HP when the damage is non-negative. */
  lemma HitKeepsHPValid(targets: seq<Target>, self: nat, damage: real, k: Knockback, i: int)
    requires 0 <= i < |targets| && damage >= 0.0
    requires targets[i].hitable.Some? && Valid(targets[i].hitable.value)
    ensures ResolveHit(targets, self, damage, k)[i].hitable.Some?
    ensures Valid(ResolveHit(targets, self, damage, k)[i].hitable.value)
    ensures ResolveHit(targets, self, damage, k)[i].hitable.value.currentHP <= targets[i].hitable.value.currentHP
  {
  }
}
