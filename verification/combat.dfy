/**
 * The main fighter's combat component: blocking, the combo timeout, light
 * punches (grounded punches count towards the combo, airborne ones do not),
 * heavy punches with their movement and gravity lock, and the air-aiming
 * value published for the attack point. Cooldowns are coroutines; here each
 * is a pending resumption time. Unity resumes a `WaitForSeconds` coroutine
 * after the `Update` calls of the first frame whose time has reached it, so
 * that frame's `Update` still sees the cooldown running.
 */
module Combat {
  import opened Geometry
  import Combo

  /** A suspended cooldown coroutine and the time it resumes at. */
  datatype Coroutine = AttackCooldown(resumeAt: real) | HeavyAttackCooldown(resumeAt: real)

  /** Seconds a heavy punch keeps the fighter from attacking. */
  const HeavyRecovery: real := 0.5

  datatype Config = Config(comboWindowTime: real, maxComboCount: int, originalGravityScale: real)

  /** The rigidbody as this component sees and writes it. */
  datatype Body = Body(velocity: Vec2, gravityScale: real)

  /**
   * `airAiming` and `publishedCombo` are the animator's `air_aiming` and
   * `combo_counter` parameters; `movementEnabled` is the movement
   * component's `enabled` flag.
   */
  datatype CombatState = CombatState(
    combo: Combo.ComboState,
    canAttack: bool,
    isHeavyAttacking: bool,
    isBlocking: bool,
    movementEnabled: bool,
    body: Body,
    airAiming: int,
    publishedCombo: int,
    pending: seq<Coroutine>)

  /**
   * One frame's input. Each button is the key or its input action (`J` or
   * block, `K` or light punch, `L` or heavy punch, `W`/`S` for up/down);
   * `yAiming` is the aim axis; `grounded` is the movement component's
   * ground check; `velocity` is the rigidbody's velocity at this frame.
   */
  datatype CombatInput = CombatInput(
    block: bool, light: bool, heavy: bool,
    up: bool, down: bool, yAiming: real,
    grounded: bool, velocity: Vec2)

  function Start(cfg: Config, velocity: Vec2): (s: CombatState)
    ensures Inv(s, cfg)
    ensures s.canAttack && s.combo.counter == 0 && s.movementEnabled
  {
    CombatState(Combo.Initial, true, false, false, true, Body(velocity, cfg.originalGravityScale), 0, 0, [])
  }

  /**
   * At most one cooldown is ever pending, attacking is allowed exactly when
   * none is, and a heavy attack is in progress exactly when the pending one
   * is the heavy cooldown.
   */
  predicate Inv(s: CombatState, cfg: Config)
  {
    && Combo.InRange(s.combo, cfg.maxComboCount)
    && |s.pending| <= 1
    && (s.canAttack <==> s.pending == [])
    && (s.isHeavyAttacking <==> (s.pending != [] && s.pending[0].HeavyAttackCooldown?))
    && -1 <= s.airAiming <= 1
  }

  /** `StartCoroutine`: the coroutine runs at once up to its wait, which clears `canAttack`. */
  function StartCooldown(s: CombatState, co: Coroutine): (r: CombatState)
    ensures !r.canAttack && r.pending == s.pending + [co]
    ensures r.combo == s.combo && r.publishedCombo == s.publishedCombo
    ensures r == s.(canAttack := false, pending := r.pending)
  {
    s.(canAttack := false, pending := s.pending + [co])
  }

  /** The air-aiming value: up wins over down; neither gives 0. */
  function AirAim(up: bool, down: bool, yAiming: real): (aim: int)
    ensures -1 <= aim <= 1
    ensures aim == 1 <==> (up || yAiming > 0.0)
    ensures aim == -1 <==> (!(up || yAiming > 0.0) && (down || yAiming < 0.0))
  {
    if up || yAiming > 0.0 then 1 else if down || yAiming < 0.0 then -1 else 0
  }

  /** A grounded light punch: increment, stamp, publish the incremented value, then wrap. */
  function GroundPunch(s: CombatState, now: real, cfg: Config): (r: CombatState)
    requires s.combo.counter >= 0
    ensures r.publishedCombo == s.combo.counter + 1
    ensures r.combo.lastPunchTime == now
    ensures Combo.InRange(r.combo, cfg.maxComboCount)
    ensures s.combo.counter + 1 >= cfg.maxComboCount ==>
              r.combo.counter == 0 && r.pending == s.pending + [AttackCooldown(now + 0.5)]
    ensures s.combo.counter + 1 < cfg.maxComboCount ==>
              r.combo.counter == s.combo.counter + 1 && r.pending == s.pending + [AttackCooldown(now + 0.2)]
    ensures !r.canAttack
    ensures r.isHeavyAttacking == s.isHeavyAttacking && r.movementEnabled == s.movementEnabled
  {
    var hit := Combo.GroundHit(s.combo, now, cfg.maxComboCount);
    var published := s.combo.counter + 1;
    StartCooldown(s.(combo := hit.combo, publishedCombo := published),
                  AttackCooldown(now + Combo.CooldownAfter(hit.completed)))
  }

  /** An airborne light punch: outside the combo system, with the ordinary cooldown. */
  function AirPunch(s: CombatState, now: real): (r: CombatState)
    ensures r.combo == s.combo && r.publishedCombo == s.publishedCombo
    ensures r.pending == s.pending + [AttackCooldown(now + 0.2)]
    ensures !r.canAttack
    ensures r.isHeavyAttacking == s.isHeavyAttacking && r.movementEnabled == s.movementEnabled
  {
    StartCooldown(s, AttackCooldown(now + Combo.PunchCooldown))
  }

  function Punch(s: CombatState, grounded: bool, now: real, cfg: Config): CombatState
    requires s.combo.counter >= 0
  {
    if grounded then GroundPunch(s, now, cfg) else AirPunch(s, now)
  }

  /**
   * A heavy punch: grounded, it disables movement; airborne, it zeroes the
   * vertical velocity and gravity. Either way attacks are blocked until the
   * heavy cooldown resumes.
   */
  function HeavyPunch(s: CombatState, grounded: bool, now: real): (r: CombatState)
    ensures r.isHeavyAttacking && !r.canAttack
    ensures r.pending == s.pending + [HeavyAttackCooldown(now + HeavyRecovery)]
    ensures grounded ==> !r.movementEnabled && r.body == s.body
    ensures !grounded ==> r.movementEnabled == s.movementEnabled
                          && r.body.velocity == Vec2(s.body.velocity.x, 0.0) && r.body.gravityScale == 0.0
    ensures r.combo == s.combo
  {
    var locked := s.(isHeavyAttacking := true);
    var frozen :=
      if grounded then locked.(movementEnabled := false)
      else locked.(body := Body(Vec2(s.body.velocity.x, 0.0), 0.0));
    StartCooldown(frozen, HeavyAttackCooldown(now + HeavyRecovery))
  }

  /** What a cooldown does when it resumes. The heavy one also resets the combo and undoes the heavy lock. */
  function Resume(s: CombatState, co: Coroutine, cfg: Config): (r: CombatState)
    ensures r.canAttack && r.pending == s.pending
    ensures co.AttackCooldown? ==> r == s.(canAttack := true)
    ensures co.HeavyAttackCooldown? ==>
              && r.combo.counter == 0 && r.publishedCombo == 0
              && !r.isHeavyAttacking && r.movementEnabled
              && r.body.gravityScale == cfg.originalGravityScale
              && r.body.velocity == s.body.velocity
  {
    match co
    case AttackCooldown(_) => s.(canAttack := true)
    case HeavyAttackCooldown(_) =>
      ForceResetCombo(s).(canAttack := true,
         isHeavyAttacking := false, movementEnabled := true,
         body := s.body.(gravityScale := cfg.originalGravityScale))
  }

  /** Resume, in order, every pending cooldown whose time has come; keep the others pending. */
  function ResumeDue(s: CombatState, now: real, cfg: Config): CombatState
  {
    ResumeEach(s.(pending := []), s.pending, now, cfg)
  }

  function ResumeEach(s: CombatState, queue: seq<Coroutine>, now: real, cfg: Config): CombatState
    decreases |queue|
  {
    if |queue| == 0 then s
    else
      var co := queue[0];
      var next := if co.resumeAt <= now then Resume(s, co, cfg) else s.(pending := s.pending + [co]);
      ResumeEach(next, queue[1..], now, cfg)
  }

  /**
   * The movement gate of a non-blocking frame, corrected: movement is
   * re-enabled only when no heavy attack holds it locked.
   */
  function GateMovement(s: CombatState): (r: CombatState)
    ensures s.isHeavyAttacking ==> r == s
    ensures !s.isHeavyAttacking ==> r == s.(movementEnabled := true)
  {
    if s.isHeavyAttacking then s else s.(movementEnabled := true)
  }

  /** The movement gate exactly as the repository writes it: every non-blocking frame re-enables movement. */
  function GateMovementAsWritten(s: CombatState): (r: CombatState)
    ensures r.movementEnabled
    ensures r.(movementEnabled := s.movementEnabled) == s
  {
    s.(movementEnabled := true)
  }

  /** Which of the two movement gates a non-blocking frame applies. */
  datatype MovementGate = AsWritten | HeavyAware

  function ApplyGate(gate: MovementGate, s: CombatState): CombatState
  {
    match gate
    case AsWritten => GateMovementAsWritten(s)
    case HeavyAware => GateMovement(s)
  }

  /** `ResetCombo`/`ForceResetCombo`: the counter goes to zero, zero is published, nothing else changes. */
  function ForceResetCombo(s: CombatState): (r: CombatState)
    ensures r.combo.counter == 0 && r.publishedCombo == 0
    ensures r.combo.lastPunchTime == s.combo.lastPunchTime
    ensures r.(combo := s.combo, publishedCombo := s.publishedCombo) == s
  {
    s.(combo := Combo.Reset(s.combo), publishedCombo := 0)
  }

  /** The combo timeout; a reset also publishes zero. */
  function TimeoutCombo(s: CombatState, now: real, cfg: Config): (r: CombatState)
    ensures r.combo == Combo.Expire(s.combo, now, cfg.comboWindowTime)
    ensures r.pending == s.pending && r.canAttack == s.canAttack
  {
    if now - s.combo.lastPunchTime > cfg.comboWindowTime && s.combo.counter > 0
    then ForceResetCombo(s)
    else s
  }

  /** One `Update` with the given movement gate. */
  function UpdateWith(s: CombatState, inp: CombatInput, now: real, cfg: Config, gate: MovementGate): CombatState
    requires s.combo.counter >= 0
  {
    var blockingSet := s.(isBlocking := inp.block);
    if inp.block then
      blockingSet.(movementEnabled := false)
    else
      var gated := ApplyGate(gate, blockingSet);
      var timedOut := TimeoutCombo(gated, now, cfg);
      var punched := if inp.light && timedOut.canAttack then Punch(timedOut, inp.grounded, now, cfg) else timedOut;
      var heavied := if inp.heavy && punched.canAttack then HeavyPunch(punched, inp.grounded, now) else punched;
      if !inp.grounded then heavied.(airAiming := AirAim(inp.up, inp.down, inp.yAiming)) else heavied
  }

  /** One `Update` with the corrected movement gate. */
  function Update(s: CombatState, inp: CombatInput, now: real, cfg: Config): CombatState
    requires s.combo.counter >= 0
  {
    UpdateWith(s, inp, now, cfg, HeavyAware)
  }

  /** One frame: the rigidbody velocity is read, `Update` runs, then the due cooldowns resume. */
  function FrameWith(s: CombatState, inp: CombatInput, now: real, cfg: Config, gate: MovementGate): (r: CombatState)
    requires Inv(s, cfg)
    ensures Inv(r, cfg)
  {
    var observed := s.(body := s.body.(velocity := inp.velocity));
    UpdateKeepsInv(observed, inp, now, cfg, gate);
    var updated := UpdateWith(observed, inp, now, cfg, gate);
    ResumeDueKeepsInv(updated, now, cfg);
    ResumeDue(updated, now, cfg)
  }

  /** A frame of the model, with the corrected movement gate. */
  function Frame(s: CombatState, inp: CombatInput, now: real, cfg: Config): (r: CombatState)
    requires Inv(s, cfg)
    ensures Inv(r, cfg)
  {
    FrameWith(s, inp, now, cfg, HeavyAware)
  }

  /** A frame of the program as written, whose gate re-enables movement on every non-blocking frame. */
  function FrameAsWritten(s: CombatState, inp: CombatInput, now: real, cfg: Config): (r: CombatState)
    requires Inv(s, cfg)
    ensures Inv(r, cfg)
  {
    FrameWith(s, inp, now, cfg, AsWritten)
  }

  /** Resuming the due cooldown of a state that satisfies the invariant keeps it. */
  lemma ResumeDueKeepsInv(s: CombatState, now: real, cfg: Config)
    requires Inv(s, cfg)
    ensures Inv(ResumeDue(s, now, cfg), cfg)
    ensures s.pending != [] && s.pending[0].resumeAt > now ==> ResumeDue(s, now, cfg) == s
    ensures s.pending != [] && s.pending[0].resumeAt <= now ==>
              ResumeDue(s, now, cfg) == Resume(s.(pending := []), s.pending[0], cfg)
    ensures s.pending == [] ==> ResumeDue(s, now, cfg) == s
  {
    var base := s.(pending := []);
    if s.pending == [] {
      assert ResumeDue(s, now, cfg) == base == s;
    } else {
      var co := s.pending[0];
      assert s.pending[1..] == [];
      var next := if co.resumeAt <= now then Resume(base, co, cfg) else base.(pending := base.pending + [co]);
      assert ResumeDue(s, now, cfg) == ResumeEach(next, s.pending[1..], now, cfg) == next;
      assert co.resumeAt > now ==> next == s;
    }
  }

  /** `Update`, with either gate, keeps the invariant: a new cooldown is only started when none is pending. */
  lemma UpdateKeepsInv(s: CombatState, inp: CombatInput, now: real, cfg: Config, gate: MovementGate)
    requires Inv(s, cfg)
    ensures Inv(UpdateWith(s, inp, now, cfg, gate), cfg)
  {
  }

  /** While blocking, movement is disabled and the frame returns before the timeout, any attack or aiming. */
  lemma BlockingShortCircuits(s: CombatState, inp: CombatInput, now: real, cfg: Config)
    requires s.combo.counter >= 0 && inp.block
    ensures Update(s, inp, now, cfg) == s.(isBlocking := true, movementEnabled := false)
  {
  }

  /** A frame without a punch resets an expired combo to zero and publishes zero. */
  lemma TimeoutResetsCombo(s: CombatState, inp: CombatInput, now: real, cfg: Config)
    requires s.combo.counter > 0 && now - s.combo.lastPunchTime > cfg.comboWindowTime
    requires !inp.block && !inp.light
    ensures Update(s, inp, now, cfg).combo.counter == 0
    ensures Update(s, inp, now, cfg).publishedCombo == 0
  {
  }

  /** When both buttons fire in one frame, the light punch starts and the heavy one is ignored. */
  lemma LightBeatsHeavy(s: CombatState, inp: CombatInput, now: real, cfg: Config)
    requires Inv(s, cfg) && s.canAttack
    requires !inp.block && inp.light && inp.heavy
    ensures !Update(s, inp, now, cfg).isHeavyAttacking
    ensures |Update(s, inp, now, cfg).pending| == 1
    ensures Update(s, inp, now, cfg).pending[0].AttackCooldown?
  {
  }

  /** Without `canAttack` no punch of either kind starts: the pending cooldown and the combo stamp stay. */
  lemma NoAttackDuringCooldown(s: CombatState, inp: CombatInput, now: real, cfg: Config)
    requires Inv(s, cfg) && !s.canAttack
    ensures Update(s, inp, now, cfg).pending == s.pending
    ensures Update(s, inp, now, cfg).combo.lastPunchTime == s.combo.lastPunchTime
    ensures Update(s, inp, now, cfg).isHeavyAttacking == s.isHeavyAttacking
  {
  }

  /**
   * A cooldown drops every press up to and including the first frame at or
   * after its end: that frame's `Update` still sees it running, and it
   * resumes only afterwards. A light press on any later frame starts a punch.
   */
  lemma CooldownEndsOnTime(s: CombatState, inp: CombatInput, now: real, next: CombatInput, later: real, cfg: Config)
    requires Inv(s, cfg) && s.pending != []
    ensures now < s.pending[0].resumeAt ==> Frame(s, inp, now, cfg).pending == s.pending
    ensures now >= s.pending[0].resumeAt ==>
              Frame(s, inp, now, cfg).canAttack && Frame(s, inp, now, cfg).pending == []
    ensures now >= s.pending[0].resumeAt && !next.block && next.light ==>
              var r := Frame(Frame(s, inp, now, cfg), next, later, cfg);
              && |r.pending| == 1
              && r.pending[0].AttackCooldown?
              && r.pending[0].resumeAt > later
  {
    var observed := s.(body := s.body.(velocity := inp.velocity));
    NoAttackDuringCooldown(observed, inp, now, cfg);
    var updated := Update(observed, inp, now, cfg);
    ResumeDueKeepsInv(updated, now, cfg);
    var r1 := Frame(s, inp, now, cfg);
    var observed2 := r1.(body := r1.body.(velocity := next.velocity));
    UpdateKeepsInv(observed2, next, later, cfg, HeavyAware);
    ResumeDueKeepsInv(Update(observed2, next, later, cfg), later, cfg);
  }

  /** When the heavy cooldown resumes it resets the combo and restores attacking, movement and gravity. */
  lemma HeavyRecoveryRestores(s: CombatState, now: real, cfg: Config)
    requires Inv(s, cfg) && s.isHeavyAttacking && s.pending[0].resumeAt <= now
    ensures ResumeDue(s, now, cfg).combo.counter == 0
    ensures ResumeDue(s, now, cfg).canAttack
    ensures !ResumeDue(s, now, cfg).isHeavyAttacking
    ensures ResumeDue(s, now, cfg).movementEnabled
    ensures ResumeDue(s, now, cfg).body.gravityScale == cfg.originalGravityScale
  {
    ResumeDueKeepsInv(s, now, cfg);
  }

  /** The heavy lock holds for the whole recovery: no non-blocking frame before it re-enables movement. */
  lemma HeavyLockHolds(s: CombatState, inp: CombatInput, now: real, cfg: Config)
    requires Inv(s, cfg) && s.isHeavyAttacking && !s.movementEnabled
    requires now < s.pending[0].resumeAt
    ensures !Frame(s, inp, now, cfg).movementEnabled
    ensures Frame(s, inp, now, cfg).isHeavyAttacking
  {
    var observed := s.(body := s.body.(velocity := inp.velocity));
    NoAttackDuringCooldown(observed, inp, now, cfg);
    ResumeDueKeepsInv(Update(observed, inp, now, cfg), now, cfg);
  }

  /**
   * As written, a grounded heavy punch at time 0 locks movement for its own
   * frame only: any non-blocking frame before the recovery ends re-enables
   * movement while the heavy attack is still running. With the corrected
   * gate the same run keeps movement disabled.
   */
  lemma AsWrittenGateReleasesHeavyLock(cfg: Config, v: Vec2, idle: CombatInput, t: real)
    requires 0.0 < t < HeavyRecovery && !idle.block
    ensures var heavy := CombatInput(false, false, true, false, false, 0.0, true, v);
            var s1 := FrameAsWritten(Start(cfg, v), heavy, 0.0, cfg);
            var s2 := FrameAsWritten(s1, idle, t, cfg);
            && s1.isHeavyAttacking && !s1.movementEnabled
            && s1.pending == [HeavyAttackCooldown(HeavyRecovery)]
            && s2.isHeavyAttacking && s2.movementEnabled
    ensures var heavy := CombatInput(false, false, true, false, false, 0.0, true, v);
            var c1 := Frame(Start(cfg, v), heavy, 0.0, cfg);
            c1.isHeavyAttacking && !Frame(c1, idle, t, cfg).movementEnabled
  {
    var heavy := CombatInput(false, false, true, false, false, 0.0, true, v);
    var s0 := Start(cfg, v);
    var o0 := s0.(body := s0.body.(velocity := v));
    var u0 := UpdateWith(o0, heavy, 0.0, cfg, AsWritten);
    assert u0.pending == [HeavyAttackCooldown(HeavyRecovery)];
    ResumeDueKeepsInv(u0, 0.0, cfg);
    var s1 := FrameAsWritten(s0, heavy, 0.0, cfg);
    assert s1 == u0;
    var o1 := s1.(body := s1.body.(velocity := idle.velocity));
    var u1 := UpdateWith(o1, idle, t, cfg, AsWritten);
    assert u1.pending == s1.pending && u1.movementEnabled && u1.isHeavyAttacking;
    ResumeDueKeepsInv(u1, t, cfg);
    var c1 := Frame(s0, heavy, 0.0, cfg);
    assert c1 == UpdateWith(o0, heavy, 0.0, cfg, HeavyAware);
    HeavyLockHolds(c1, idle, t, cfg);
  }

  /** The aim is refreshed only on airborne, non-blocking frames. */
  lemma AirAimOnlyAirborne(s: CombatState, inp: CombatInput, now: real, cfg: Config)
    requires s.combo.counter >= 0 && !inp.block
    ensures inp.grounded ==> Update(s, inp, now, cfg).airAiming == s.airAiming
    ensures !inp.grounded ==> Update(s, inp, now, cfg).airAiming == AirAim(inp.up, inp.down, inp.yAiming)
  {
  }

  /** An airborne light punch leaves the combo counter and its time stamp alone. */
  lemma AirPunchOutsideCombo(s: CombatState, inp: CombatInput, now: real, cfg: Config)
    requires Inv(s, cfg) && s.canAttack && !inp.block && inp.light && !inp.grounded
    requires now - s.combo.lastPunchTime <= cfg.comboWindowTime
    ensures Update(s, inp, now, cfg).combo == s.combo
    ensures Update(s, inp, now, cfg).pending == [AttackCooldown(now + 0.2)]
  {
  }
}
