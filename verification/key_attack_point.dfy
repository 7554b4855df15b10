/**
 * The attack point that turns `K`/`L` presses into punches: a cooldown gate
 * on the selected punch's duration, one deferred hit per punch at the
 * punch's `hitSecond`, and a hit that re-selects the punch from the
 * combat state at the moment it fires. Deferred hits are pending fire
 * times. Unity fires a due `Invoke` after the `Update` calls of the first
 * frame whose time has reached it, so a tick runs `Update` first and then
 * fires the due hits.
 */
module KeyAttackPoint {
  import opened Optional
  import opened Geometry
  import opened Hitable
  import opened Punches
  import opened PunchData
  import opened MoveSelection
  import opened HitResolution

  /** What the attack point reads at a given moment: the combat component's ground check and counter, the animator's aim. */
  datatype CombatView = CombatView(grounded: bool, comboCounter: nat, airAiming: int)

  datatype AttackPointState = AttackPointState(
    isHeavyPunch: bool,
    isOnCooldown: bool,
    cooldownEndTime: real,
    pendingHits: seq<real>)

  const Initial: AttackPointState := AttackPointState(false, false, 0.0, [])

  /** The world at a tick: the combat view, the parent's x scale (facing) and the colliders in the attack circle. */
  datatype World = World(view: CombatView, facingScale: real, targets: seq<Target>)

  /** At most one hit is pending, and only while the cooldown of the punch that armed it runs past it. */
  predicate Inv(s: AttackPointState)
  {
    s.pendingHits == [] || (|s.pendingHits| == 1 && s.isOnCooldown && s.pendingHits[0] < s.cooldownEndTime)
  }

  function KnockbackForce(heavy: bool): real
  {
    if heavy then 5.0 else 2.0
  }

  function SelectFor(d: Directions, heavy: bool, view: CombatView): Punch
  {
    Select(d, view.grounded, heavy, view.comboCounter, view.airAiming)
  }

  /** Start the selected punch: its duration is the cooldown, its `hitSecond` the delay of the one hit it arms. */
  function PerformPunch(s: AttackPointState, view: CombatView, now: real, d: Directions): (r: AttackPointState)
    ensures r.isOnCooldown && r.isHeavyPunch == s.isHeavyPunch
    ensures r.cooldownEndTime == now + SelectFor(d, s.isHeavyPunch, view).duration
    ensures r.pendingHits == s.pendingHits + [now + SelectFor(d, s.isHeavyPunch, view).hitSecond]
    ensures now < r.pendingHits[|r.pendingHits| - 1] < r.cooldownEndTime
  {
    var p := SelectFor(d, s.isHeavyPunch, view);
    s.(isOnCooldown := true, cooldownEndTime := now + p.duration, pendingHits := s.pendingHits + [now + p.hitSecond])
  }

  /** `knockBackEnemy`'s velocity: the punch direction with x flipped by the facing scale, times 5 (heavy) or 2. */
  function KnockbackVelocity(p: Punch, heavy: bool, facingScale: real): (v: Vec2)
    ensures v.x == p.direction.x * facingScale * KnockbackForce(heavy)
    ensures v.y == p.direction.y * KnockbackForce(heavy)
  {
    Scale(Vec2(p.direction.x * facingScale, p.direction.y), KnockbackForce(heavy))
  }

  /**
   * `PerformAttack`: damage and knockback come from the punch selected NOW,
   * from the strength flag and the view at hit time; the attack point's own
   * game object is skipped.
   */
  function PerformAttack(heavy: bool, w: World, self: nat, d: Directions): (r: seq<Target>)
    ensures |r| == |w.targets|
    ensures forall i :: 0 <= i < |r| && w.targets[i].id == self ==> r[i] == w.targets[i]
    ensures forall i :: 0 <= i < |r| ==> r[i].id == w.targets[i].id && r[i].away == w.targets[i].away
    ensures forall i :: 0 <= i < |r| && w.targets[i].hitable.None? ==> r[i].hitable.None?
    ensures forall i :: 0 <= i < |r| && w.targets[i].velocity.None? ==> r[i].velocity.None?
    ensures forall i :: 0 <= i < |r| && w.targets[i].id != self && w.targets[i].hitable.Some? ==>
              r[i].hitable == Some(ChangeHP(w.targets[i].hitable.value, -SelectFor(d, heavy, w.view).damage))
    ensures forall i :: 0 <= i < |r| && w.targets[i].id != self && w.targets[i].velocity.Some? ==>
              r[i].velocity == Some(KnockbackVelocity(SelectFor(d, heavy, w.view), heavy, w.facingScale))
  {
    var v := w.view;
    var damage := HitDamage(d, v.grounded, heavy, v.comboCounter, v.airAiming);
    var p := SelectFor(d, heavy, v);
    ResolveHit(w.targets, self, damage, Fixed(KnockbackVelocity(p, heavy, w.facingScale)))
  }

  /** `Update`: clear an elapsed cooldown, then light before heavy, only when off cooldown. */
  function Update(s: AttackPointState, light: bool, heavy: bool, view: CombatView, now: real, d: Directions): AttackPointState
  {
    var cleared := if s.isOnCooldown && now >= s.cooldownEndTime then s.(isOnCooldown := false) else s;
    if cleared.isOnCooldown then cleared
    else if light then PerformPunch(cleared.(isHeavyPunch := false), view, now, d)
    else if heavy then PerformPunch(cleared.(isHeavyPunch := true), view, now, d)
    else cleared
  }

  datatype TickResult = TickResult(state: AttackPointState, targets: seq<Target>)

  /** The fire times of `queue` that are still in the future at `now`, in order. */
  function NotYetDue(queue: seq<real>, now: real): (r: seq<real>)
    ensures forall t :: t in r <==> t in queue && t > now
    decreases |queue|
  {
    if |queue| == 0 then []
    else
      assert forall t :: t in queue <==> t == queue[0] || t in queue[1..];
      if queue[0] <= now then NotYetDue(queue[1..], now) else [queue[0]] + NotYetDue(queue[1..], now)
  }

  /** Fire, in order, every pending hit due by `now` against the world as it stands; keep the rest pending. */
  function FireEach(s: AttackPointState, queue: seq<real>, w: World, now: real, self: nat, d: Directions): (r: TickResult)
    ensures |r.targets| == |w.targets|
    decreases |queue|
  {
    if |queue| == 0 then TickResult(s, w.targets)
    else if queue[0] <= now then FireEach(s, queue[1..], w.(targets := PerformAttack(s.isHeavyPunch, w, self, d)), now, self, d)
    else FireEach(s.(pendingHits := s.pendingHits + [queue[0]]), queue[1..], w, now, self, d)
  }

  /** Firing keeps exactly the hits that are not yet due, in order, and changes nothing else in the state. */
  lemma {:induction false} FireEachKeepsLaterHits(s: AttackPointState, queue: seq<real>, w: World, now: real, self: nat, d: Directions)
    ensures FireEach(s, queue, w, now, self, d).state == s.(pendingHits := s.pendingHits + NotYetDue(queue, now))
    decreases |queue|
  {
    if |queue| == 0 {
      assert s.pendingHits + [] == s.pendingHits;
    } else if queue[0] <= now {
      var struck := w.(targets := PerformAttack(s.isHeavyPunch, w, self, d));
      assert FireEach(s, queue, w, now, self, d) == FireEach(s, queue[1..], struck, now, self, d);
      FireEachKeepsLaterHits(s, queue[1..], struck, now, self, d);
    } else {
      var s' := s.(pendingHits := s.pendingHits + [queue[0]]);
      FireEachKeepsLaterHits(s', queue[1..], w, now, self, d);
      assert s'.pendingHits + NotYetDue(queue[1..], now) == s.pendingHits + NotYetDue(queue, now);
    }
  }

  /** A queue none of whose hits is due yet fires nothing and stays pending as it is. */
  lemma {:induction false} FireEachNoneDue(s: AttackPointState, queue: seq<real>, w: World, now: real, self: nat, d: Directions)
    requires forall k :: 0 <= k < |queue| ==> queue[k] > now
    ensures FireEach(s, queue, w, now, self, d) == TickResult(s.(pendingHits := s.pendingHits + queue), w.targets)
    decreases |queue|
  {
    if |queue| == 0 {
      assert s.pendingHits + [] == s.pendingHits;
    } else {
      var s' := s.(pendingHits := s.pendingHits + [queue[0]]);
      FireEachNoneDue(s', queue[1..], w, now, self, d);
      assert s'.pendingHits + queue[1..] == s.pendingHits + queue;
    }
  }

  function FireDue(s: AttackPointState, w: World, now: real, self: nat, d: Directions): (r: TickResult)
    ensures |r.targets| == |w.targets|
    ensures r.state == s.(pendingHits := NotYetDue(s.pendingHits, now))
  {
    FireEachKeepsLaterHits(s.(pendingHits := []), s.pendingHits, w, now, self, d);
    FireEach(s.(pendingHits := []), s.pendingHits, w, now, self, d)
  }

  /** One tick: `Update` reads the buttons, then the due hits fire with the strength as it now stands. */
  function Tick(s: AttackPointState, light: bool, heavy: bool, w: World, now: real, self: nat, d: Directions): (r: TickResult)
    requires Inv(s)
    ensures Inv(r.state)
  {
    var updated := Update(s, light, heavy, w.view, now, d);
    UpdateThenFireKeepsInv(s, light, heavy, w.view, now, d);
    FireDue(updated, w, now, self, d)
  }

  /**
   * After `Update`, firing the due hits restores the invariant. A punch can
   * only start once the cooldown has ended, and the old hit, armed before
   * that end, is then due; the new hit lies in the future.
   */
  lemma UpdateThenFireKeepsInv(s: AttackPointState, light: bool, heavy: bool, view: CombatView, now: real, d: Directions)
    requires Inv(s)
    ensures var u := Update(s, light, heavy, view, now, d);
            Inv(u.(pendingHits := NotYetDue(u.pendingHits, now)))
  {
    var u := Update(s, light, heavy, view, now, d);
    if s.pendingHits != [] {
      assert s.pendingHits == [s.pendingHits[0]];
    }
    if s.isOnCooldown && now < s.cooldownEndTime {
      assert u == s;
      if s.pendingHits != [] && s.pendingHits[0] > now {
        assert NotYetDue(u.pendingHits, now) == [s.pendingHits[0]];
      }
    } else if s.pendingHits != [] {
      assert s.pendingHits[0] <= now;
      if light || heavy {
        var next := u.pendingHits[1];
        assert u.pendingHits == [s.pendingHits[0], next];
        assert next > now;
        assert u.pendingHits[1..] == [next] && [next][1..] == [];
        assert NotYetDue([next], now) == [next] + NotYetDue([], now);
        assert NotYetDue(u.pendingHits, now) == [next];
      } else {
        assert NotYetDue(u.pendingHits, now) == [];
      }
    }
  }

  /** With at most one pending hit, it has fired iff it was due, and nothing else about the state changes. */
  lemma FireDueCases(s: AttackPointState, w: World, now: real, self: nat, d: Directions)
    requires Inv(s)
    ensures s.pendingHits == [] ==> FireDue(s, w, now, self, d) == TickResult(s, w.targets)
    ensures s.pendingHits != [] && s.pendingHits[0] > now ==> FireDue(s, w, now, self, d) == TickResult(s, w.targets)
    ensures s.pendingHits != [] && s.pendingHits[0] <= now ==>
              FireDue(s, w, now, self, d) == TickResult(s.(pendingHits := []), PerformAttack(s.isHeavyPunch, w, self, d))
  {
    if s.pendingHits != [] {
      var base := s.(pendingHits := []);
      assert s.pendingHits[1..] == [];
      if s.pendingHits[0] <= now {
        assert FireDue(s, w, now, self, d) == FireEach(base, [], w.(targets := PerformAttack(s.isHeavyPunch, w, self, d)), now, self, d);
      } else {
        assert base.pendingHits + [s.pendingHits[0]] == [s.pendingHits[0]];
        assert FireDue(s, w, now, self, d) == FireEach(base.(pendingHits := [s.pendingHits[0]]), [], w, now, self, d);
      }
    }
  }

  /** No punch starts before the cooldown ends: until then `Update` changes nothing. */
  lemma NoPunchDuringCooldown(s: AttackPointState, light: bool, heavy: bool, view: CombatView, now: real, d: Directions)
    requires s.isOnCooldown && now < s.cooldownEndTime
    ensures Update(s, light, heavy, view, now, d) == s
  {
  }

  /** Once the cooldown has ended, it clears, and a pressed button starts a new punch. */
  lemma CooldownClearsOnTime(s: AttackPointState, light: bool, heavy: bool, view: CombatView, now: real, d: Directions)
    requires now >= s.cooldownEndTime
    ensures !light && !heavy ==> !Update(s, light, heavy, view, now, d).isOnCooldown
    ensures light || heavy ==> Update(s, light, heavy, view, now, d).cooldownEndTime > now
    ensures light || heavy ==> |Update(s, light, heavy, view, now, d).pendingHits| == |s.pendingHits| + 1
  {
  }

  /** When both buttons fire in one frame, the light punch wins. */
  lemma LightBeatsHeavy(s: AttackPointState, view: CombatView, now: real, d: Directions)
    requires !s.isOnCooldown || now >= s.cooldownEndTime
    ensures !Update(s, true, true, view, now, d).isHeavyPunch
    ensures Update(s, true, true, view, now, d) == Update(s, true, false, view, now, d)
  {
  }

  /**
   * On a tick before the cooldown ends no new punch can start, so a pending
   * hit either waits or fires with the strength it was armed with.
   */
  lemma PendingHitKeepsItsPunch(s: AttackPointState, light: bool, heavy: bool, w: World, now: real, self: nat, d: Directions)
    requires Inv(s) && s.pendingHits != [] && now < s.cooldownEndTime
    ensures s.pendingHits[0] > now ==> Tick(s, light, heavy, w, now, self, d) == TickResult(s, w.targets)
    ensures s.pendingHits[0] <= now ==>
              Tick(s, light, heavy, w, now, self, d) == TickResult(s.(pendingHits := []), PerformAttack(s.isHeavyPunch, w, self, d))
  {
    NoPunchDuringCooldown(s, light, heavy, w.view, now, d);
    FireDueCases(s, w, now, self, d);
  }

  /**
   * If no tick falls between a hit's time and the end of its punch's
   * cooldown, the first later tick with a press starts the new punch first,
   * and the old hit fires with the new punch's strength.
   */
  lemma LateTickRelabelsPendingHit(s: AttackPointState, heavy: bool, w: World, now: real, self: nat, d: Directions)
    requires Inv(s) && s.pendingHits != [] && now >= s.cooldownEndTime
    ensures Tick(s, true, heavy, w, now, self, d).targets == PerformAttack(false, w, self, d)
    ensures |Tick(s, true, heavy, w, now, self, d).state.pendingHits| == 1
  {
    var u := Update(s, true, heavy, w.view, now, d);
    assert s.pendingHits == [s.pendingHits[0]];
    var base := u.(pendingHits := []);
    var next := u.pendingHits[1];
    assert u.pendingHits == [s.pendingHits[0], next];
    assert u.pendingHits[1..] == [next];
    var w' := w.(targets := PerformAttack(false, w, self, d));
    FireEachNoneDue(base, [next], w', now, self, d);
    assert FireDue(u, w, now, self, d) == FireEach(base, [next], w', now, self, d);
  }

  /**
   * Concretely: a grounded heavy punch at combo 0 starts at 0 (hit at 0.47,
   * cooldown until 1.05). If the next tick is at 1.1 with `K` pressed, the
   * light punch starts first and the old hit deals 15, not 30.
   */
  lemma LateHeavyHitLandsLight(d: Directions, hp: HitableObject)
    requires hp == Hitable.Start(DefaultMaxHP)
    ensures var view := CombatView(true, 0, 0);
            var w := World(view, 1.0, [Target(1, Some(hp), None, Vec2(1.0, 0.0))]);
            var t0 := Tick(Initial, false, true, w, 0.0, 0, d);
            var t1 := Tick(t0.state, true, false, w.(targets := t0.targets), 1.1, 0, d);
            && t0.state.pendingHits == [0.47] && t0.state.cooldownEndTime == 1.05
            && t1.targets[0].hitable == Some(HitableObject(100.0, 85.0))
  {
    var view := CombatView(true, 0, 0);
    var w := World(view, 1.0, [Target(1, Some(hp), None, Vec2(1.0, 0.0))]);
    var u0 := Update(Initial, false, true, view, 0.0, d);
    FireEachNoneDue(u0.(pendingHits := []), u0.pendingHits, w, 0.0, 0, d);
    var t0 := Tick(Initial, false, true, w, 0.0, 0, d);
    LateTickRelabelsPendingHit(t0.state, false, w, 1.1, 0, d);
  }

  /**
   * The hit re-selects its punch when it fires: a grounded heavy punch
   * started at combo 0 (30 damage) that fires after the counter moved to 2
   * deals 40.
   */
  lemma HitReselectsPunch(d: Directions, hp: HitableObject)
    requires hp == Hitable.Start(DefaultMaxHP)
    ensures var armed := PerformPunch(Initial.(isHeavyPunch := true), CombatView(true, 0, 0), 0.0, d);
            var w := World(CombatView(true, 2, 0), 1.0, [Target(1, Some(hp), None, Vec2(1.0, 0.0))]);
            && armed.pendingHits == [0.47]
            && FireDue(armed, w, 0.47, 0, d).targets[0].hitable == Some(HitableObject(100.0, 60.0))
  {
    var armed := PerformPunch(Initial.(isHeavyPunch := true), CombatView(true, 0, 0), 0.0, d);
    var w := World(CombatView(true, 2, 0), 1.0, [Target(1, Some(hp), None, Vec2(1.0, 0.0))]);
    FireDueCases(armed, w, 0.47, 0, d);
  }

  /**
   * The timeline of a grounded light punch at combo 0 started at time 0:
   * nothing at 0.16, the 15-damage hit at 0.17, a new punch possible at 0.33.
   */
  lemma GroundedLightTimeline(d: Directions, hp: HitableObject)
    requires hp == Hitable.Start(DefaultMaxHP)
    ensures var view := CombatView(true, 0, 0);
            var w := World(view, 1.0, [Target(1, Some(hp), None, Vec2(1.0, 0.0))]);
            var t0 := Tick(Initial, true, false, w, 0.0, 0, d);
            var t1 := Tick(t0.state, false, false, w.(targets := t0.targets), 0.16, 0, d);
            var t2 := Tick(t1.state, false, false, w.(targets := t1.targets), 0.17, 0, d);
            var t3 := Tick(t2.state, true, false, w.(targets := t2.targets), 0.33, 0, d);
            && t0.state.pendingHits == [0.17] && t0.state.cooldownEndTime == 0.33
            && t1.targets == w.targets
            && t2.targets[0].hitable == Some(HitableObject(100.0, 85.0))
            && t2.state.isOnCooldown
            && t3.state.pendingHits == [0.5]
  {
    var view := CombatView(true, 0, 0);
    var w := World(view, 1.0, [Target(1, Some(hp), None, Vec2(1.0, 0.0))]);
    var u0 := Update(Initial, true, false, view, 0.0, d);
    FireEachNoneDue(u0.(pendingHits := []), u0.pendingHits, w, 0.0, 0, d);
    var t0 := Tick(Initial, true, false, w, 0.0, 0, d);
    PendingHitKeepsItsPunch(t0.state, false, false, w.(targets := t0.targets), 0.16, 0, d);
    var t1 := Tick(t0.state, false, false, w.(targets := t0.targets), 0.16, 0, d);
    PendingHitKeepsItsPunch(t1.state, false, false, w.(targets := t1.targets), 0.17, 0, d);
  }
}
