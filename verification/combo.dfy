/**
 * The combo counter shared by both combat components: a counter of
 * consecutive grounded punches that expires after a time window and wraps
 * to zero on reaching the maximum.
 */
module Combo {
  datatype ComboState = ComboState(counter: int, lastPunchTime: real)

  /** Cooldown after an ordinary punch, in seconds. */
  const PunchCooldown: real := 0.2
  /** Cooldown after the punch that completes a combo, in seconds. */
  const FinisherCooldown: real := 0.5

  const Initial: ComboState := ComboState(0, 0.0)

  /** The counter is never negative, and is below the maximum unless it is zero. */
  predicate InRange(c: ComboState, maxComboCount: int)
  {
    0 <= c.counter && (c.counter == 0 || c.counter < maxComboCount)
  }

  /** The per-frame timeout: a non-zero counter resets once more than `window` has passed since the last punch. */
  function Expire(c: ComboState, now: real, window: real): (r: ComboState)
    ensures r.lastPunchTime == c.lastPunchTime
    ensures r.counter == 0 <==> (c.counter == 0 || (c.counter > 0 && now - c.lastPunchTime > window))
    ensures r.counter != 0 ==> r == c
  {
    if now - c.lastPunchTime > window && c.counter > 0 then c.(counter := 0) else c
  }

  /** `ResetCombo` and `ForceResetCombo`: the counter goes to zero whatever it was. */
  function Reset(c: ComboState): (r: ComboState)
    ensures r.counter == 0
    ensures r.lastPunchTime == c.lastPunchTime
  {
    c.(counter := 0)
  }

  /** The counter update of a grounded punch and whether it completed the combo. */
  datatype GroundHitResult = GroundHitResult(combo: ComboState, completed: bool)

  /** A grounded punch: count it, stamp it, and wrap to zero on reaching the maximum. */
  function GroundHit(c: ComboState, now: real, maxComboCount: int): (r: GroundHitResult)
    ensures r.combo.lastPunchTime == now
    ensures r.completed <==> c.counter + 1 >= maxComboCount
    ensures r.completed ==> r.combo.counter == 0
    ensures !r.completed ==> r.combo.counter == c.counter + 1
    ensures c.counter >= 0 ==> InRange(r.combo, maxComboCount)
  {
    var counted := c.counter + 1;
    if counted >= maxComboCount then GroundHitResult(ComboState(0, now), true)
    else GroundHitResult(ComboState(counted, now), false)
  }

  /** The cooldown a punch starts: longer for the punch that completes the combo. */
  function CooldownAfter(completed: bool): real
  {
    if completed then FinisherCooldown else PunchCooldown
  }

  /** The timeout is idempotent, and once expired further frames keep the counter at zero. */
  lemma ExpireIdempotent(c: ComboState, now: real, later: real, window: real)
    requires now <= later
    ensures Expire(Expire(c, now, window), now, window) == Expire(c, now, window)
    ensures Expire(c, now, window).counter == 0 ==> Expire(Expire(c, now, window), later, window).counter == 0
  {
  }

  /** The counter after a grounded punch at each of `times`, starting from `c`. */
  function CounterAfter(c: ComboState, times: seq<real>, maxComboCount: int): (r: ComboState)
    ensures InRange(c, maxComboCount) ==> InRange(r, maxComboCount)
    decreases |times|
  {
    if |times| == 0 then c
    else CounterAfter(GroundHit(c, times[0], maxComboCount).combo, times[1..], maxComboCount)
  }

  /**
   * Within one combo the counter simply counts: `k` grounded punches from
   * `c` leave `c.counter + k`, except that the punch reaching the maximum
   * leaves zero.
   */
  lemma {:induction false} CounterCounts(c: ComboState, times: seq<real>, maxComboCount: int)
    requires 0 <= c.counter < maxComboCount
    requires c.counter + |times| <= maxComboCount
    ensures CounterAfter(c, times, maxComboCount).counter
         == if c.counter + |times| == maxComboCount then 0 else c.counter + |times|
    decreases |times|
  {
    if |times| > 0 {
      var next := GroundHit(c, times[0], maxComboCount).combo;
      if c.counter + 1 == maxComboCount {
        assert |times[1..]| == 0;
      } else {
        CounterCounts(next, times[1..], maxComboCount);
      }
    }
  }

  /** A full combo of `maxComboCount` grounded punches from an idle counter returns it to zero. */
  lemma FullComboReturnsToIdle(c: ComboState, times: seq<real>, maxComboCount: int)
    requires c.counter == 0 && |times| == maxComboCount && maxComboCount >= 1
    ensures CounterAfter(c, times, maxComboCount).counter == 0
  {
    CounterCounts(c, times, maxComboCount);
  }
}
