/**
 * The player's life bookkeeping: damage subtracts without a lower clamp and
 * reports death at or below zero; healing is capped at the maximum.
 */
module PlayerLife {
  datatype Player = Player(maxLife: real, currentLife: real, teamNumber: int)

  const DefaultMaxLife: real := 100.0

  /** Initialisation: life starts at the maximum; the team number keeps its configured value. */
  function Start(maxLife: real, teamNumber: int): (p: Player)
    ensures p.currentLife == maxLife && p.maxLife == maxLife
    ensures GetTeamNumber(p) == teamNumber
  {
    Player(maxLife, maxLife, teamNumber)
  }

  /** Outcome of `TakeDamage`: the new state and whether `Die` was invoked. */
  datatype DamageOutcome = DamageOutcome(player: Player, died: bool)

  function TakeDamage(p: Player, damage: real): (r: DamageOutcome)
    ensures r.player.currentLife == p.currentLife - damage
    ensures r.player.maxLife == p.maxLife && r.player.teamNumber == p.teamNumber
    ensures r.died <==> r.player.currentLife <= 0.0
  {
    var life := p.currentLife - damage;
    DamageOutcome(p.(currentLife := life), life <= 0.0)
  }

  function Heal(p: Player, amount: real): (r: Player)
    ensures r.currentLife <= p.maxLife
    ensures r.currentLife == p.currentLife + amount <==> p.currentLife + amount <= p.maxLife
    ensures r.currentLife != p.currentLife + amount ==> r.currentLife == p.maxLife
    ensures r.maxLife == p.maxLife && r.teamNumber == p.teamNumber
  {
    p.(currentLife := if p.currentLife + amount < p.maxLife then p.currentLife + amount else p.maxLife)
  }

  function GetTeamNumber(p: Player): int
  {
    p.teamNumber
  }

  function SetTeamNumber(p: Player, team: int): (r: Player)
    ensures GetTeamNumber(r) == team
    ensures r.currentLife == p.currentLife && r.maxLife == p.maxLife
  {
    p.(teamNumber := team)
  }

  /** Damage has no floor: a full-life player hit for more than its life goes negative and dies. */
  lemma LifeCanGoNegative()
    ensures TakeDamage(Start(DefaultMaxLife, 0), 150.0).player.currentLife == -50.0
    ensures TakeDamage(Start(DefaultMaxLife, 0), 150.0).died
  {
  }

  /** Healing a player whose life went negative cannot overshoot the maximum either. */
  lemma {:induction false} HealingNeverExceedsMax(p: Player, amounts: seq<real>)
    requires p.currentLife <= p.maxLife
    ensures HealAll(p, amounts).currentLife <= p.maxLife
    ensures HealAll(p, amounts).maxLife == p.maxLife
    decreases |amounts|
  {
    if |amounts| > 0 {
      HealingNeverExceedsMax(Heal(p, amounts[0]), amounts[1..]);
    }
  }

  function HealAll(p: Player, amounts: seq<real>): Player
    decreases |amounts|
  {
    if |amounts| == 0 then p else HealAll(Heal(p, amounts[0]), amounts[1..])
  }
}
