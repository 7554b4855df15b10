/**
 * The attack point of the current player prefab: the same cooldown,
 * selection, scheduling and hit logic as `KeyAttackPoint`, with each
 * button read as its key OR its input-system action.
 */
module InputAttackPoint {
  import opened PunchData
  import opened MoveSelection
  import K = KeyAttackPoint

  /** One frame's buttons: the `K` and `L` keys and the light/heavy punch actions of this player's device. */
  datatype Buttons = Buttons(keyK: bool, lightAction: bool, keyL: bool, heavyAction: bool)

  function Light(b: Buttons): bool
  {
    b.keyK || b.lightAction
  }

  function Heavy(b: Buttons): bool
  {
    b.keyL || b.heavyAction
  }

  function Update(s: K.AttackPointState, b: Buttons, view: K.CombatView, now: real, d: Directions): K.AttackPointState
  {
    K.Update(s, Light(b), Heavy(b), view, now, d)
  }

  /** One tick: `Update` reads the buttons, then the due hits fire. */
  function Tick(s: K.AttackPointState, b: Buttons, w: K.World, now: real, self: nat, d: Directions): (r: K.TickResult)
    requires K.Inv(s)
    ensures K.Inv(r.state)
  {
    K.Tick(s, Light(b), Heavy(b), w, now, self, d)
  }

  /** The key and the action are interchangeable: either one alone starts the same light punch. */
  lemma KeyOrActionStartsLightPunch(s: K.AttackPointState, view: K.CombatView, now: real, d: Directions)
    requires !s.isOnCooldown || now >= s.cooldownEndTime
    ensures Update(s, Buttons(true, false, false, false), view, now, d)
         == Update(s, Buttons(false, true, false, false), view, now, d)
    ensures Update(s, Buttons(false, true, false, false), view, now, d).cooldownEndTime
         == now + Select(d, view.grounded, false, view.comboCounter, view.airAiming).duration
  {
  }

  /** A light press from either source beats a heavy press from either source in the same frame. */
  lemma LightBeatsHeavyAcrossSources(s: K.AttackPointState, b: Buttons, view: K.CombatView, now: real, d: Directions)
    requires !s.isOnCooldown || now >= s.cooldownEndTime
    requires Light(b)
    ensures !Update(s, b, view, now, d).isHeavyPunch
    ensures Update(s, b, view, now, d).pendingHits
         == s.pendingHits + [now + Select(d, view.grounded, false, view.comboCounter, view.airAiming).hitSecond]
  {
  }

  /** No press of any source starts a punch while the cooldown runs. */
  lemma CooldownGatesAllSources(s: K.AttackPointState, b: Buttons, view: K.CombatView, now: real, d: Directions)
    requires s.isOnCooldown && now < s.cooldownEndTime
    ensures Update(s, b, view, now, d) == s
  {
  }
}
