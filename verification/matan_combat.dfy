/**
 * The earlier combat component: light punches only, no blocking or heavy
 * attacks. Its grounded punch publishes the combo counter to the animator
 * BEFORE incrementing it, where `Combat` publishes after.
 */
module MatanCombat {
  import Combo
  import Combat
  import Geometry

  datatype Config = Config(comboWindowTime: real, maxComboCount: int)

  /** `pending` holds the resumption times of suspended `AttackCooldown` coroutines. */
  datatype MatanState = MatanState(combo: Combo.ComboState, canAttack: bool, publishedCombo: int, pending: seq<real>)

  /** One frame's input: the `K` key and the movement component's ground check. */
  datatype MatanInput = MatanInput(keyK: bool, grounded: bool)

  const Initial: MatanState := MatanState(Combo.Initial, true, 0, [])

  predicate Inv(s: MatanState, cfg: Config)
  {
    && Combo.InRange(s.combo, cfg.maxComboCount)
    && |s.pending| <= 1
    && (s.canAttack <==> s.pending == [])
  }

  /** A grounded punch: stamp, publish the counter as it was, then increment and wrap. */
  function GroundPunch(s: MatanState, now: real, cfg: Config): (r: MatanState)
    requires s.combo.counter >= 0
    ensures r.publishedCombo == s.combo.counter
    ensures r.combo.lastPunchTime == now
    ensures Combo.InRange(r.combo, cfg.maxComboCount)
    ensures s.combo.counter + 1 >= cfg.maxComboCount ==>
              r.combo.counter == 0 && r.pending == s.pending + [now + 0.5]
    ensures s.combo.counter + 1 < cfg.maxComboCount ==>
              r.combo.counter == s.combo.counter + 1 && r.pending == s.pending + [now + 0.2]
    ensures !r.canAttack
  {
    var published := s.combo.counter;
    var hit := Combo.GroundHit(s.combo, now, cfg.maxComboCount);
    s.(combo := hit.combo, publishedCombo := published, canAttack := false,
       pending := s.pending + [now + Combo.CooldownAfter(hit.completed)])
  }

  /** An airborne punch: outside the combo system, with the ordinary cooldown. */
  function AirPunch(s: MatanState, now: real): (r: MatanState)
    ensures r.combo == s.combo && r.publishedCombo == s.publishedCombo
    ensures r.pending == s.pending + [now + 0.2]
    ensures !r.canAttack
  {
    s.(canAttack := false, pending := s.pending + [now + Combo.PunchCooldown])
  }

  /** `ForceResetCombo`: the counter goes to zero, and zero is published. */
  function ForceResetCombo(s: MatanState): (r: MatanState)
    ensures r.combo.counter == 0 && r.publishedCombo == 0
    ensures r.(combo := s.combo, publishedCombo := s.publishedCombo) == s
  {
    s.(combo := Combo.Reset(s.combo), publishedCombo := 0)
  }

  /** Resume every due cooldown (each sets `canAttack`); keep the others pending. */
  function ResumeDue(s: MatanState, now: real): (r: MatanState)
    ensures r.combo == s.combo && r.publishedCombo == s.publishedCombo
    ensures forall t :: t in r.pending <==> t in s.pending && t > now
    ensures r.canAttack <==> s.canAttack || exists t :: t in s.pending && t <= now
    decreases |s.pending|
  {
    if |s.pending| == 0 then s
    else
      assert forall t :: t in s.pending <==> t == s.pending[0] || t in s.pending[1..];
      var rest := ResumeDue(s.(pending := s.pending[1..]), now);
      if s.pending[0] <= now then
        assert s.pending[0] in s.pending && s.pending[0] <= now;
        rest.(canAttack := true)
      else rest.(pending := [s.pending[0]] + rest.pending)
  }

  function Update(s: MatanState, inp: MatanInput, now: real, cfg: Config): MatanState
    requires s.combo.counter >= 0
  {
    var timedOut :=
      if now - s.combo.lastPunchTime > cfg.comboWindowTime && s.combo.counter > 0
      then ForceResetCombo(s) else s;
    if inp.keyK && timedOut.canAttack then
      if inp.grounded then GroundPunch(timedOut, now, cfg) else AirPunch(timedOut, now)
    else timedOut
  }

  /** Resuming a queue of at most one cooldown: it resumes exactly when its time has come. */
  lemma ResumeOne(s: MatanState, now: real)
    requires |s.pending| <= 1
    ensures s.pending == [] ==> ResumeDue(s, now) == s
    ensures s.pending != [] && now < s.pending[0] ==> ResumeDue(s, now) == s
    ensures s.pending != [] && s.pending[0] <= now ==> ResumeDue(s, now) == s.(canAttack := true, pending := [])
  {
    if s.pending != [] {
      assert s.pending[1..] == [];
      assert ResumeDue(s.(pending := s.pending[1..]), now) == s.(pending := []);
    }
  }

  /**
   * One frame: `Update` runs, then the due cooldowns resume. A press on the
   * frame that ends a cooldown is dropped, since `Update` still sees it running.
   */
  function Frame(s: MatanState, inp: MatanInput, now: real, cfg: Config): (r: MatanState)
    requires Inv(s, cfg)
    ensures Inv(r, cfg)
    ensures !s.canAttack && now < s.pending[0] ==> r.pending == s.pending && !r.canAttack
    ensures !s.canAttack && s.pending[0] <= now ==> r.pending == [] && r.canAttack
    ensures s.canAttack && inp.keyK ==> |r.pending| == 1 && r.pending[0] > now && !r.canAttack
  {
    var updated := Update(s, inp, now, cfg);
    ResumeOne(updated, now);
    ResumeDue(updated, now)
  }

  /** The timeout resets a non-zero counter only once the window has elapsed. */
  lemma TimeoutOnlyAfterWindow(s: MatanState, now: real, cfg: Config)
    requires s.combo.counter >= 0
    ensures Update(s, MatanInput(false, true), now, cfg).combo.counter == 0
        <==> (s.combo.counter == 0 || now - s.combo.lastPunchTime > cfg.comboWindowTime)
  {
  }

  /** A punch starts only when `canAttack` holds. */
  lemma PunchNeedsCanAttack(s: MatanState, inp: MatanInput, now: real, cfg: Config)
    requires s.combo.counter >= 0
    ensures Update(s, inp, now, cfg).pending != s.pending <==> (inp.keyK && s.canAttack)
  {
  }

  /**
   * Side by side with `Combat`: from the same counter, a grounded punch of
   * either component leaves the same counter, stamp and cooldown, but this
   * one publishes the counter before the increment and `Combat` after it.
   */
  lemma PublishOrderDiffers(m: MatanState, c: Combat.CombatState, now: real, maxComboCount: int, window: real, gravity: real)
    requires m.combo == c.combo && m.combo.counter >= 0 && m.pending == [] && c.pending == []
    ensures var mr := GroundPunch(m, now, Config(window, maxComboCount));
            var cr := Combat.GroundPunch(c, now, Combat.Config(window, maxComboCount, gravity));
            && mr.combo == cr.combo
            && |mr.pending| == |cr.pending| == 1
            && mr.pending[0] == cr.pending[0].resumeAt
            && mr.publishedCombo == m.combo.counter
            && cr.publishedCombo == mr.publishedCombo + 1
  {
  }

  /**
   * Within one combo from an idle counter, the `k`-th grounded punch
   * (counting from zero) publishes `k` here and `k + 1` in `Combat`: for a
   * maximum of 3 that is 0, 1, 2 against 1, 2, 3.
   */
  lemma PublishedSequences(times: seq<real>, now: real, maxComboCount: int, window: real, gravity: real)
    requires |times| < maxComboCount
    ensures var before := Combo.CounterAfter(Combo.Initial, times, maxComboCount);
            && GroundPunch(MatanState(before, true, 0, []), now, Config(window, maxComboCount)).publishedCombo == |times|
            && Combat.GroundPunch(Combat.CombatState(before, true, false, false, true, Combat.Body(Geometry.Vec2(0.0, 0.0), gravity), 0, 0, []),
                                  now, Combat.Config(window, maxComboCount, gravity)).publishedCombo == |times| + 1
  {
    Combo.CounterCounts(Combo.Initial, times, maxComboCount);
  }
}
