# Melee combat and locomotion decisions of a 2D fighter, in Dafny

This project models the discrete decision logic of a Unity 2D fighting game:

- the punch catalog (three regular and three heavy punches);
- how an attack selects its punch from grounded/airborne state, strength, combo counter and air aim;
- the cooldown gate and the deferred hit of the three `attack_point` components;
- what a hit does to the colliders it finds: damage through `ChangeHP`, knockback by overwriting velocity, skipping colliders of the attack point's own game object;
- the combo counter, cooldowns, blocking, heavy-attack lock and air aiming of `Combat` and the older `Matan_Combat`;
- HP bookkeeping of training targets (`hitable_object`) and of players (`Player`);
- the jump, double-jump, wall-slide and wall-jump decisions of `Movements`.

Every component is a pure step function over an explicit `now` (seconds, as `real`). Physics queries, input devices and the rigidbody are inputs. Unity's deferred mechanisms are explicit pending lists in the state: `Invoke(…, delay)` and `WaitForSeconds` coroutines. Unity runs them after the `Update` calls of a frame. So a tick first runs the component's `Update`, then every pending callback whose time has come. A callback therefore runs on the first frame whose time has reached it, and that frame's `Update` still sees the state from before the callback: a cooldown ending on that frame still drops that frame's press.

Modules, one per source file or shared concept:

| module | file | models |
|---|---|---|
| `Punches` | punch.dfy | `Punch` record and constructor |
| `PunchData` | punch_data.dfy | `RegularPunches` / `HeavyPunches` tables |
| `MoveSelection` | move_selection.dfy | the selection both player `attack_point`s repeat in `PerformPunch`, `PerformAttack` and `knockBackEnemy` |
| `HitResolution` | hit_resolution.dfy | the per-collider hit loop with `isSameObject`, `damageEnemy` and knockback |
| `Hitable` | hitable.dfy | `hitable_object` |
| `PlayerLife` | player.dfy | `Player` |
| `Combo` | combo.dfy | the combo counter shared by `Combat` and `Matan_Combat` |
| `Combat` | combat.dfy | `Combat` |
| `MatanCombat` | matan_combat.dfy | `Matan_Combat` |
| `KeyAttackPoint` | key_attack_point.dfy | `Assets/player/attack_point.cs`, holding the selection, cooldown, hit and knockback logic |
| `InputAttackPoint` | input_attack_point.dfy | `Assets/player/scripts/attack_point.cs`: the same logic, each button read as key OR input action |
| `MatanAttackPoint` | matan_attack_point.dfy | `Assets/player/matan/scripts/attack_point.cs` |
| `Movements` | movements.dfy | `Movements` |
| `Geometry`, `Optional` | geometry.dfy, optional.dfy | `Vector2`; components that may be missing (`GetComponent` returning null) |

Two quirks of the repository:

- `Punch` declares no `direction` field, yet `knockBackEnemy` reads `currentPunch.direction`. The model adds `direction` to the record. The catalog gives no values, so the six directions are an abstract `Directions` parameter.
- Three classes share the name `attack_point`, so each file is its own module.

Four facts about the code that the model keeps:

- Knockback magnitude is not part of a punch. It is 5 for heavy and 2 for light (`attack_point.cs`).
- The heavy-attack lock lasts a fixed 0.5 s, whatever the punch's duration.
- Gravity, zeroed by an airborne heavy punch, is restored when that 0.5 s ends.
- `Combat` increments the combo counter when the punch starts. The hit lands later, through the attack point.

## Model

| member | source | states |
|---|---|---|
| `Punches.NewPunch` | Assets/player/matan/scripts/punch.cs:9-14 | the constructor stores damage, duration and hitSecond exactly as passed |
| `Punches.NewPunchDoesNotValidate` | Assets/player/matan/scripts/punch.cs:9-14 | the constructor accepts a negative damage and a hit after the end, unchanged |
| `PunchData.TablesHaveThreeEntries` | Assets/player/matan/scripts/PunchData.cs:5-17 | both tables have exactly three entries, so index 2 is the last |
| `PunchData.EveryEntryWellTimed` | Assets/player/matan/scripts/PunchData.cs:7-16 | every entry has `0 < hitSecond < duration`: its hit fires before its cooldown ends |
| `PunchData.RegularPunchesUniform` | Assets/player/matan/scripts/PunchData.cs:7-9 | every regular punch deals 15 and hits at 0.17 s |
| `PunchData.HeavyDamageIncreasing` | Assets/player/matan/scripts/PunchData.cs:14-16 | heavy damage strictly increases with the index (30 < 35 < 40) |
| `PunchData.HeavyDominatesRegular` | Assets/player/matan/scripts/PunchData.cs:7-16 | every heavy entry deals more damage and lasts longer than every regular entry |
| `MoveSelection.ClampIndex` | Assets/player/scripts/attack_point.cs:96-98 | `Mathf.Min(counter, Length-1)` is always a valid index, is the counter or the last index, and is the last index for any counter at or past it |
| `MoveSelection.AirHeavyIndex` | Assets/player/scripts/attack_point.cs:105-117 | aim > 0 picks heavy entry 0, aim < 0 entry 1, otherwise entry 2 |
| `MoveSelection.Select` | Assets/player/scripts/attack_point.cs:93-124 | the selected punch belongs to the table of the requested strength and is well timed; it is heavy exactly when heavy was requested |
| `MoveSelection.HitDamage` | Assets/player/scripts/attack_point.cs:144-175 | the damage copy in `PerformAttack` agrees with the selection's damage on every input |
| `MoveSelection.GroundedUsesClampedIndex` | Assets/player/attack_point.cs:47-52 | a grounded attack uses entry `min(comboCounter, 2)` of its table |
| `MoveSelection.CounterPastEndSelectsLast` | Assets/player/scripts/attack_point.cs:94-99 | any counter of 2 or more selects the same punch as counter 2, whatever the aim |
| `MoveSelection.AirLightAlwaysFirst` | Assets/player/scripts/attack_point.cs:120-123 | an airborne light attack is `RegularPunches[0]` for every combo counter and aim |
| `MoveSelection.AirHeavyBySignOnly` | Assets/player/attack_point.cs:55-71 | an airborne heavy attack depends only on the sign of the aim (0/1/2), never on the counter |
| `HitResolution.ResolveHit` | Assets/player/scripts/attack_point.cs:177-200 | colliders of the attack point's own game object (`self`) are untouched; every other one, including the fighter's own body, has its HP changed by `-damage` if it has an HP component and its velocity overwritten if it has a rigidbody |
| `HitResolution.OnlySelfHasNoEffect` | Assets/player/attack_point.cs:130-133 | a query result holding only colliders of the attack point's own game object changes nothing |
| `HitResolution.HitKeepsHPValid` | Assets/player/scripts/attack_point.cs:193-200 | a hit keeps each struck HP within `[0, maxHP]` and never raises it |
| `Hitable.Start` | Assets/training/hitable_object.cs:9-12 | HP starts at `maxHP` |
| `Hitable.ChangeHP` | Assets/training/hitable_object.cs:25-28 | the result is `current + amount` clamped to `[0, maxHP]`: 0 when it would go below, `maxHP` when above; validity is preserved |
| `Hitable.GetCurrentHP` | Assets/training/hitable_object.cs:20-23 | the reported HP of a valid object lies in `[0, maxHP]` |
| `Hitable.DamageAccumulates` | Assets/training/hitable_object.cs:25-28 | two hits of a and b leave what one hit of a + b leaves |
| `Hitable.RepeatedDamage` | Assets/training/hitable_object.cs:25-28 | n hits of d leave what one hit of n·d leaves, and the object stays valid |
| `PlayerLife.Start` | Assets/player/scripts/player.cs:9-12 | life starts at `maxLife` |
| `PlayerLife.TakeDamage` | Assets/player/scripts/player.cs:14-21 | life drops by exactly the damage with no floor; `Die` is invoked iff life is then ≤ 0 |
| `PlayerLife.LifeCanGoNegative` | Assets/player/scripts/player.cs:14-21 | 150 damage on a full 100 life leaves -50, and the player dies |
| `PlayerLife.Heal` | Assets/player/scripts/player.cs:23-26 | life becomes `min(current + amount, maxLife)`, never above `maxLife` |
| `PlayerLife.HealingNeverExceedsMax` | Assets/player/scripts/player.cs:23-26 | any series of heals keeps life at or below `maxLife` |
| `PlayerLife.SetTeamNumber` | Assets/player/scripts/player.cs:39-47 | reading the team number after setting it returns the value set; life is unchanged |
| `Combo.Expire` | Assets/player/scripts/combat.cs:99-102 | the counter becomes 0 iff it was 0 or the window has elapsed since the last punch; otherwise nothing changes |
| `Combo.ExpireIdempotent` | Assets/player/matan/scripts/Matan_Combat.cs:33-36 | the timeout is idempotent, and a counter it reset stays 0 at later frames |
| `Combo.Reset` | Assets/player/scripts/combat.cs:274-282 | the counter is 0 afterwards, whatever it was |
| `Combo.GroundHit` | Assets/player/scripts/combat.cs:199-220 | a grounded punch stamps `now`, counts up by one and wraps to 0 exactly when it reaches the maximum, so the counter stays in range |
| `Combo.CounterCounts` | Assets/player/scripts/combat.cs:199-225 | within one combo, k punches from counter c leave c + k, or 0 for the punch that reaches the maximum |
| `Combo.FullComboReturnsToIdle` | Assets/player/matan/scripts/Matan_Combat.cs:79-90 | `maxComboCount` punches from an idle counter return it to 0 |
| `Combat.Start` | Assets/player/scripts/combat.cs:13-19 | the initial state can attack, has counter 0 and satisfies the invariant |
| `Combat.StartCooldown` | Assets/player/scripts/combat.cs:248-253 | starting a cooldown clears `canAttack` and adds exactly one pending resumption; the combo, the published counter and every other field are left as they were |
| `Combat.AirAim` | Assets/player/scripts/combat.cs:123-140 | aim is 1 if up is pressed, else -1 if down, else 0 |
| `Combat.GroundPunch` | Assets/player/scripts/combat.cs:197-231 | publishes the counter after the increment; wraps at the maximum with a 0.5 s cooldown, else counts up with a 0.2 s cooldown |
| `Combat.AirPunch` | Assets/player/scripts/combat.cs:233-246 | an air punch leaves the counter, its stamp and the published value alone and starts a 0.2 s cooldown |
| `Combat.HeavyPunch` | Assets/player/scripts/combat.cs:160-195 | grounded: movement is disabled; airborne: vertical velocity and gravity become 0; either way a 0.5 s heavy cooldown starts |
| `Combat.Resume` | Assets/player/scripts/combat.cs:248-272 | a resumed cooldown restores `canAttack`; the heavy one also resets the combo, ends the heavy attack, re-enables movement and restores gravity |
| `Combat.ForceResetCombo` | Assets/player/scripts/combat.cs:274-288 | the counter and the published value become 0; nothing else changes |
| `Combat.TimeoutCombo` | Assets/player/scripts/combat.cs:99-102 | the frame's combo is the timeout of the previous one; cooldowns are untouched |
| `Combat.GateMovement` | Assets/player/scripts/combat.cs:93-96 | corrected gate: a non-blocking frame re-enables movement unless a heavy attack is running |
| `Combat.GateMovementAsWritten` | Assets/player/scripts/combat.cs:93-96 | every non-blocking frame re-enables movement and changes nothing else |
| `Combat.Frame` | Assets/player/scripts/combat.cs:67-121 | a frame (`Update` with the corrected gate, then the due cooldown resumes) keeps the invariant: counter in range, at most one cooldown pending, `canAttack` iff none, heavy-attacking iff the pending one is heavy |
| `Combat.FrameWith` | Assets/player/scripts/combat.cs:67-121 | with either movement gate, `Update` followed by the due cooldown's resumption keeps the invariant |
| `Combat.FrameAsWritten` | Assets/player/scripts/combat.cs:67-121 | a frame of the program as written, with its unconditional movement gate, keeps the same invariant |
| `Combat.ResumeDueKeepsInv` | Assets/player/scripts/combat.cs:248-272 | the pending cooldown resumes iff its time has come, and the invariant holds afterwards |
| `Combat.UpdateKeepsInv` | Assets/player/scripts/combat.cs:67-121 | `Update`, with either movement gate, preserves the invariant: a punch starts its cooldown only when none is pending, and a heavy punch marks the pending one heavy |
| `Combat.BlockingShortCircuits` | Assets/player/scripts/combat.cs:78-92 | a blocking frame only sets blocking and disables movement: no timeout, attack or aiming |
| `Combat.TimeoutResetsCombo` | Assets/player/scripts/combat.cs:99-102 | once the window has elapsed, a non-blocking frame without a punch leaves counter 0 and publishes 0 |
| `Combat.LightBeatsHeavy` | Assets/player/scripts/combat.cs:105-114 | with both buttons pressed, only the light punch starts |
| `Combat.NoAttackDuringCooldown` | Assets/player/scripts/combat.cs:105-114 | without `canAttack`, no punch of either kind starts |
| `Combat.CooldownEndsOnTime` | Assets/player/scripts/combat.cs:248-253 | before the cooldown's end nothing starts; the frame at or after the end drops its press and ends with the cooldown resumed and none pending; a light press on any later frame starts a punch |
| `Combat.HeavyRecoveryRestores` | Assets/player/scripts/combat.cs:255-272 | after 0.5 s the heavy attack resets the combo and restores attacking, movement and gravity |
| `Combat.HeavyLockHolds` | Assets/player/scripts/combat.cs:164-168 | with the corrected gate, every frame before the recovery's resumption time keeps movement disabled and the heavy attack running |
| `Combat.AsWrittenGateReleasesHeavyLock` | Assets/player/scripts/combat.cs:93-96 | as written, after a grounded heavy punch at 0, every non-blocking frame at 0 < t < 0.5 ends with movement enabled while `isHeavyAttacking` holds; the corrected frame keeps movement disabled |
| `Combat.AirAimOnlyAirborne` | Assets/player/scripts/combat.cs:117-120 | the aim is refreshed on airborne frames only |
| `Combat.AirPunchOutsideCombo` | Assets/player/scripts/combat.cs:233-246 | an air light punch changes neither the counter nor `lastPunchTime` |
| `MatanCombat.GroundPunch` | Assets/player/matan/scripts/Matan_Combat.cs:63-96 | publishes the counter before the increment; wraps at the maximum with a 0.5 s cooldown, else 0.2 s |
| `MatanCombat.AirPunch` | Assets/player/matan/scripts/Matan_Combat.cs:98-112 | an air punch leaves the combo alone and starts a 0.2 s cooldown |
| `MatanCombat.ForceResetCombo` | Assets/player/matan/scripts/Matan_Combat.cs:121-135 | the counter always becomes 0 and 0 is published; nothing else changes |
| `MatanCombat.ResumeDue` | Assets/player/matan/scripts/Matan_Combat.cs:114-119 | exactly the cooldowns whose time has come resume, and `canAttack` returns iff one did |
| `MatanCombat.ResumeOne` | Assets/player/matan/scripts/Matan_Combat.cs:114-119 | a single pending cooldown resumes (restoring `canAttack`) exactly when its time has come; otherwise nothing changes |
| `MatanCombat.Frame` | Assets/player/matan/scripts/Matan_Combat.cs:30-43 | `Update` runs before the due cooldown resumes: a frame keeps the counter in range and `canAttack` iff no cooldown is pending; before the end nothing changes the cooldown; the frame at or after the end drops its press and resumes it; a press while `canAttack` holds starts exactly one future cooldown |
| `MatanCombat.TimeoutOnlyAfterWindow` | Assets/player/matan/scripts/Matan_Combat.cs:33-36 | the counter is 0 after a frame without a press iff it was 0 or the window has elapsed |
| `MatanCombat.PunchNeedsCanAttack` | Assets/player/matan/scripts/Matan_Combat.cs:39-42 | a cooldown starts iff K is pressed while `canAttack` holds |
| `MatanCombat.PublishOrderDiffers` | Assets/player/matan/scripts/Matan_Combat.cs:63-96 | compared with `Combat`, the same counter, stamp and cooldown result, but the published value is one lower |
| `MatanCombat.PublishedSequences` | Assets/player/matan/scripts/Matan_Combat.cs:71-85 | the k-th punch of a combo publishes k here and k + 1 in `Combat`: 0, 1, 2 against 1, 2, 3 |
| `KeyAttackPoint.PerformPunch` | Assets/player/attack_point.cs:43-87 | cooldown ends at `now + duration`; exactly one hit is armed at `now + hitSecond`, strictly inside the cooldown |
| `KeyAttackPoint.KnockbackVelocity` | Assets/player/attack_point.cs:191-193 | knockback is `(dir.x * facingScale, dir.y)` times 5 for heavy or 2 for light |
| `KeyAttackPoint.PerformAttack` | Assets/player/attack_point.cs:89-137 | damage and knockback come from the punch re-selected at hit time from the strength flag and the view then; only the attack point's own game object is skipped; every collider keeps its identity and direction, and one without an HP component or rigidbody stays without |
| `KeyAttackPoint.Tick` | Assets/player/attack_point.cs:20-41 | a tick (`Update`, then the due hit fires) keeps the invariant: at most one hit pending, and only while the cooldown of the punch that armed it runs past it |
| `KeyAttackPoint.UpdateThenFireKeepsInv` | Assets/player/attack_point.cs:20-41 | a punch can start only once the cooldown has ended, when the old hit is due; so firing after `Update` leaves at most the new hit pending |
| `KeyAttackPoint.FireDue` | Assets/player/attack_point.cs:86 | firing keeps exactly the hits not yet due, in order, and changes nothing else in the state |
| `KeyAttackPoint.FireEachKeepsLaterHits` | Assets/player/attack_point.cs:86 | firing any queue keeps exactly its not-yet-due hits, in order |
| `KeyAttackPoint.FireEachNoneDue` | Assets/player/attack_point.cs:86 | a queue with no due hit fires nothing and stays pending unchanged |
| `KeyAttackPoint.FireDueCases` | Assets/player/attack_point.cs:86 | the pending hit fires iff its time has come; nothing else in the state changes |
| `KeyAttackPoint.NoPunchDuringCooldown` | Assets/player/attack_point.cs:22-28 | while `now < cooldownEndTime`, `Update` changes nothing |
| `KeyAttackPoint.CooldownClearsOnTime` | Assets/player/attack_point.cs:22-28 | from `cooldownEndTime` on the cooldown clears, and a press starts a new punch |
| `KeyAttackPoint.LightBeatsHeavy` | Assets/player/attack_point.cs:30-39 | K and L in the same frame act as K alone |
| `KeyAttackPoint.PendingHitKeepsItsPunch` | Assets/player/attack_point.cs:79-86 | on a tick before the cooldown ends, a pending hit either waits (nothing changes) or fires with the strength it was armed with |
| `KeyAttackPoint.LateTickRelabelsPendingHit` | Assets/player/attack_point.cs:20-41 | on a tick past the cooldown's end with the hit still pending, a light press starts the new punch first and the old hit fires with light strength; one hit stays pending |
| `KeyAttackPoint.LateHeavyHitLandsLight` | Assets/player/attack_point.cs:89-128 | a grounded heavy punch at 0, then the next tick at 1.1 with `K` pressed: the old hit deals 15, not 30 |
| `KeyAttackPoint.HitReselectsPunch` | Assets/player/attack_point.cs:97-128 | a heavy punch armed at combo 0 (30) that fires after the counter reached 2 deals 40 |
| `KeyAttackPoint.GroundedLightTimeline` | Assets/player/attack_point.cs:79-86 | grounded light punch at t=0: no hit at 0.16, 15 damage at 0.17, a new punch at 0.33 |
| `InputAttackPoint.Tick` | Assets/player/scripts/attack_point.cs:48-88 | the input-system variant keeps the same invariant |
| `InputAttackPoint.KeyOrActionStartsLightPunch` | Assets/player/scripts/attack_point.cs:77-81 | K and the light action start the same punch, with cooldown `now + duration` |
| `InputAttackPoint.LightBeatsHeavyAcrossSources` | Assets/player/scripts/attack_point.cs:77-86 | a light press from either source beats a heavy press from either source and arms the light punch's hit |
| `InputAttackPoint.CooldownGatesAllSources` | Assets/player/scripts/attack_point.cs:69-74 | no press from any source starts a punch before `cooldownEndTime` |
| `MatanAttackPoint.Update` | Assets/player/matan/scripts/attack_point.cs:14-21 | every K press arms one more hit 0.3 s later, with no gate |
| `MatanAttackPoint.PerformAttack` | Assets/player/matan/scripts/attack_point.cs:23-62 | colliders of the attack point's own game object are skipped; every other collider takes `ChangeHP(-10)` and has its velocity overwritten with 10 × the direction away from the attack point; every collider keeps its identity and direction, and one without an HP component or rigidbody stays without |
| `MatanAttackPoint.FireDue` | Assets/player/matan/scripts/attack_point.cs:16-20 | exactly the hits whose time has come leave the queue and none fires early; the attack point's own colliders are never touched and every collider keeps its identity (what the due hits do to the others is `StackedHitsAccumulate`) |
| `MatanAttackPoint.HitsStack` | Assets/player/matan/scripts/attack_point.cs:16-20 | presses at 0.0 and 0.1 leave two hits pending, at 0.3 and 0.4 |
| `MatanAttackPoint.StackedHitsAccumulate` | Assets/player/matan/scripts/attack_point.cs:44-51 | whichever n of the pending hits are due in a tick, even with later hits still queued, they take 10 HP n times from every other hitable collider |
| `MatanAttackPoint.MixedQueueFiresDueHits` | Assets/player/matan/scripts/attack_point.cs:16-20 | of two hits armed 0.1 s apart, a tick between their fire times strikes once for 10 and keeps the later hit pending |
| `Movements.HandleInput` | Assets/player/scripts/movements.cs:90-99 | while wall sliding, input whose `Mathf.Sign` equals the facing is zeroed; otherwise it passes through |
| `Movements.CheckGrounded` | Assets/player/scripts/movements.cs:106-113 | being grounded clears `hasDoubleJumped` |
| `Movements.CheckWallSlide` | Assets/player/scripts/movements.cs:115-120 | sliding iff touching a wall (head or feet), not grounded, falling (`vy < 0`) and not wall-jumping |
| `Movements.HandleMovement` | Assets/player/scripts/movements.cs:142-162 | no change while wall-jumping; non-zero input faces `originalXScale * sign(input)`; zero keeps the facing |
| `Movements.HandleJumping` | Assets/player/scripts/movements.cs:164-190 | a press while sliding wall-jumps, a press while grounded ground-jumps with `jumpForce`, and a press while airborne, not sliding and with the double jump unused double-jumps at `0.8 * jumpForce` and uses it; a press does nothing exactly when airborne, not sliding and the double jump is spent |
| `Movements.WallJump` | Assets/player/scripts/movements.cs:192-206 | sets wall-jumping, clears sliding, input and the double jump, arms the 0.6 s reset; x velocity opposes the facing |
| `Movements.ResetDue` | Assets/player/scripts/movements.cs:208-211 | wall-jumping ends exactly when a pending reset is due |
| `Movements.Frame` | Assets/player/scripts/movements.cs:70-79 | `Update` runs before a due reset: a frame keeps the invariant (wall-jumping iff a reset is pending, never also sliding) and the double-jump rules |
| `Movements.WallSlideIff` | Assets/player/scripts/movements.cs:117-120 | after a frame without a wall jump, sliding holds iff the slide predicate holds on the state at the frame's start |
| `Movements.WallJumpSkipsControl` | Assets/player/scripts/movements.cs:142-145 | while wall-jumping, including the frame the reset falls due, the facing ignores the input and no new wall jump starts; before that frame wall-jumping continues |
| `Movements.WallJumpEndsAfterLock` | Assets/player/scripts/movements.cs:205-211 | after the first frame at or after the reset time, wall-jumping is over and no reset is pending |
| `Movements.AtMostOneDoubleJump` | Assets/player/scripts/movements.cs:183-188 | in the air, with no grounding and no wall jump, at most one double jump happens, and none if it is already used |

## Findings

| source | as written | input that shows it | evidently intended | confidence | as-written member | corrected member |
|---|---|---|---|---|---|---|
| Assets/player/scripts/combat.cs:93-96 | every non-blocking frame sets `movementScript.enabled = true`, even during a heavy attack | a grounded heavy punch at t=0, then a frame without block before t=0.5: movement is re-enabled while `isHeavyAttacking` still holds | a grounded heavy punch keeps movement disabled until `HeavyAttackCooldown` restores it after 0.5 s (lines 164-168, 263-267) | medium, not executed | `Combat.AsWrittenGateReleasesHeavyLock` (a run of `Combat.FrameAsWritten`, whose gate is `Combat.GateMovementAsWritten`) | `Combat.HeavyLockHolds` (on `Combat.Frame`, whose gate is `Combat.GateMovement`) |

## Left out

- Unity lifecycle and input plumbing are not modelled: `Start`/`OnEnable`/`OnDisable`, `Player_actions`, `PlayerInput` device filtering. This includes the way `lightPunchPressed` keeps its last value when no control is active. Each button is a per-frame boolean: the key OR'd with its action.
- Physics queries are inputs: `OverlapCircleAll` is the list of colliders given to a tick, and `OverlapCircle` ground and wall checks are booleans. In the program `GetComponent<hitable_object>()` returns the one component shared by every collider of a game object, so an object with several colliders in the query takes the damage once per collider; the model gives each collider entry its own HP component and under-counts that case.
- The `enemy` layer mask of the hit query is scene data, so the model does not decide which colliders it returns. `isSameObject` compares with the attack point's own game object, a child of the fighter. If the query returns a collider of the fighter's body or a sibling, the model strikes it like any other.
- Rigidbody force arithmetic is left out: the wall-slide impulse, the velocity-matching impulse of `HandleMovement`, and the normalisation of the knockback direction in the earliest attack point (given as each target's `away` vector). This is floating-point vector maths.
- Floating point is modelled as exact reals, so `float` rounding of times, HP and damage is not represented.
- Presentation is left out: animator triggers and booleans (other than the combo counter and air-aiming values), Gizmos, `Debug.Log` and the `Die` log.
- Missing components are not modelled. `Combat`/`Matan_Combat` without a movement script ignore punches, and without an animator never write the aim. The attack point reads aim 0 when it has no animator. The model assumes the movement script, animator and rigidbody exist.
- Cross-component frame ordering is left out. `Combat` and the attack point both react to the same press, in an unspecified script order, so each is modelled separately. The combo counter, grounded flag and aim are inputs to the attack point.
- Within one frame, several due callbacks of one component run in the order they were armed. Unity's relative order of `Invoke` and coroutine callbacks across components is not modelled.
- `GetCurrentLife` is a plain field read with no logic of its own. `GetTeamNumber` is modelled only as the read that `SetTeamNumber`'s contract uses.
- `PunchData` directions: the tables give no knockback directions, so they are a parameter.
- `Combat.Frame`: follows the corrected movement gate listed under Findings, not the as-written one.
