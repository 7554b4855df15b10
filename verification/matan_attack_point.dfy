/**
 * The earliest attack point: every `K` press arms a hit 0.3 s later, with
 * no cooldown, so several hits may be pending at once. A hit deals a fixed
 * 10 damage and sets every struck rigidbody moving away from the attack
 * point at speed 10.
 */
module MatanAttackPoint {
  import opened Optional
  import opened Hitable
  import opened HitResolution

  const HitDelay: real := 0.3
  const HitDamage: real := 10.0
  const KnockbackSpeed: real := 10.0

  /** The hits armed and not yet fired, by fire time. */
  datatype MatanAttackState = MatanAttackState(pendingHits: seq<real>)

  /** `Update`: a press always arms one more hit. */
  function Update(s: MatanAttackState, keyK: bool, now: real): (r: MatanAttackState)
    ensures keyK ==> r.pendingHits == s.pendingHits + [now + 0.3]
    ensures !keyK ==> r == s
  {
    if keyK then s.(pendingHits := s.pendingHits + [now + HitDelay]) else s
  }

  /** `PerformAttack`: 10 damage and an overwritten velocity for every collider but the attack point's own object's. */
  function PerformAttack(targets: seq<Target>, self: nat): (r: seq<Target>)
    ensures |r| == |targets|
    ensures forall i :: 0 <= i < |r| && targets[i].id == self ==> r[i] == targets[i]
    ensures forall i :: 0 <= i < |r| ==> r[i].id == targets[i].id && r[i].away == targets[i].away
    ensures forall i :: 0 <= i < |r| && targets[i].hitable.None? ==> r[i].hitable.None?
    ensures forall i :: 0 <= i < |r| && targets[i].velocity.None? ==> r[i].velocity.None?
    ensures forall i :: 0 <= i < |r| && targets[i].id != self && targets[i].hitable.Some? ==>
              r[i].hitable == Some(ChangeHP(targets[i].hitable.value, -10.0))
    ensures forall i :: 0 <= i < |r| && targets[i].id != self && targets[i].velocity.Some? ==>
              r[i].velocity == Some(Geometry.Vec2(targets[i].away.x * 10.0, targets[i].away.y * 10.0))
  {
    ResolveHit(targets, self, HitDamage, Radial(KnockbackSpeed))
  }

  datatype FireResult = FireResult(pendingHits: seq<real>, targets: seq<Target>)

  /** The number of pending hits due by `now`. */
  function CountDue(pending: seq<real>, now: real): nat
  {
    if |pending| == 0 then 0
    else (if pending[0] <= now then 1 else 0) + CountDue(pending[1..], now)
  }

  /** Fire, in order, every pending hit due by `now`; keep the others pending. */
  function FireDue(pending: seq<real>, targets: seq<Target>, now: real, self: nat): (r: FireResult)
    ensures |r.targets| == |targets|
    ensures |r.pendingHits| == |pending| - CountDue(pending, now)
    ensures forall i :: 0 <= i < |targets| ==> r.targets[i].id == targets[i].id
    ensures forall i :: 0 <= i < |targets| && targets[i].id == self ==> r.targets[i] == targets[i]
    ensures forall t :: t in r.pendingHits <==> t in pending && t > now
    ensures (forall k :: 0 <= k < |pending| ==> pending[k] > now) ==> r == FireResult(pending, targets)
    decreases |pending|
  {
    if |pending| == 0 then FireResult([], targets)
    else
      assert forall t :: t in pending <==> t == pending[0] || t in pending[1..];
      if pending[0] <= now then FireDue(pending[1..], PerformAttack(targets, self), now, self)
      else
        var rest := FireDue(pending[1..], targets, now, self);
        FireResult([pending[0]] + rest.pendingHits, rest.targets)
  }

  /** One tick: the key is read, then the due hits fire. A hit armed now is never due in the same tick. */
  function Tick(s: MatanAttackState, keyK: bool, targets: seq<Target>, now: real, self: nat): FireResult
  {
    FireDue(Update(s, keyK, now).pendingHits, targets, now, self)
  }

  /** Presses 0.1 s apart leave two hits pending at once: nothing gates them. */
  lemma HitsStack(targets: seq<Target>, self: nat)
    ensures var t0 := Tick(MatanAttackState([]), true, targets, 0.0, self);
            var t1 := Tick(MatanAttackState(t0.pendingHits), true, t0.targets, 0.1, self);
            t1.pendingHits == [0.3, 0.4]
  {
  }

  /**
   * When `n` of the pending hits are due in one tick, whatever later hits
   * stay pending, every other hitable collider loses `10 * n` HP, floored
   * at zero.
   */
  lemma {:induction false} StackedHitsAccumulate(pending: seq<real>, targets: seq<Target>, now: real, self: nat, i: int)
    requires 0 <= i < |targets| && targets[i].id != self
    requires targets[i].hitable.Some?
    ensures FireDue(pending, targets, now, self).targets[i].id == targets[i].id
    ensures FireDue(pending, targets, now, self).targets[i].hitable
         == Some(RepeatHit(targets[i].hitable.value, 10.0, |pending| - |FireDue(pending, targets, now, self).pendingHits|))
    decreases |pending|
  {
    var r := FireDue(pending, targets, now, self);
    var h := targets[i].hitable.value;
    if |pending| == 0 {
      assert r.targets == targets;
    } else if pending[0] <= now {
      var struck := PerformAttack(targets, self);
      assert struck[i].hitable == Some(ChangeHP(h, -10.0));
      assert r == FireDue(pending[1..], struck, now, self);
      StackedHitsAccumulate(pending[1..], struck, now, self, i);
      var n := CountDue(pending[1..], now);
      assert |pending| - |r.pendingHits| == n + 1;
      LaterHitFirst(h, n);
    } else {
      var rest := FireDue(pending[1..], targets, now, self);
      assert r.targets == rest.targets;
      StackedHitsAccumulate(pending[1..], targets, now, self, i);
      assert |pending| - |r.pendingHits| == CountDue(pending[1..], now);
    }
  }

  /** The due hits fire whatever their position in the queue: a tick 0.35 s after two presses 0.1 s apart fires only the first. */
  lemma MixedQueueFiresDueHits(targets: seq<Target>, self: nat, i: int)
    requires 0 <= i < |targets| && targets[i].id != self
    requires targets[i].hitable.Some?
    ensures FireDue([0.3, 0.4], targets, 0.35, self).pendingHits == [0.4]
    ensures FireDue([0.3, 0.4], targets, 0.35, self).targets[i].hitable
         == Some(ChangeHP(targets[i].hitable.value, -10.0))
  {
  }

  /** Hitting once and then `n` more times is hitting `n + 1` times. */
  lemma {:induction false} LaterHitFirst(h: HitableObject, n: nat)
    ensures RepeatHit(ChangeHP(h, -10.0), 10.0, n) == RepeatHit(h, 10.0, n + 1)
    decreases n
  {
    if n > 0 {
      LaterHitFirst(h, n - 1);
    }
  }
}
