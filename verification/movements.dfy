/**
 * The jump and wall-slide decisions of the locomotion component. Overlap
 * checks and the rigidbody's vertical velocity are inputs; the velocity a
 * jump sets is reported as a `JumpEffect`. The wall-jump reset is an
 * `Invoke` 0.6 s later, kept as a pending time. Unity runs a due `Invoke`
 * after the `Update` calls of the first frame that reaches it, so that
 * frame's `Update` still sees the fighter wall-jumping.
 */
module Movements {
  /** Seconds of lost horizontal control after a wall jump. */
  const WallJumpLock: real := 0.6

  /** `jumpForce`, `jumpHorizontalForce`, and `originalXScale` (the absolute x scale at start). */
  datatype Tuning = Tuning(jumpForce: real, jumpHorizontalForce: real, originalXScale: real)

  /** `scaleX` is the transform's x scale, whose sign is the facing. */
  datatype MoveState = MoveState(
    isGrounded: bool,
    isWallSliding: bool,
    isWallJumping: bool,
    hasDoubleJumped: bool,
    moveInput: real,
    scaleX: real,
    pendingResets: seq<real>)

  /**
   * One frame's input: the movement axis, the jump action, the ground
   * check, the two wall checks and the rigidbody's vertical velocity.
   */
  datatype MoveInput = MoveInput(movementX: real, jump: bool, groundContact: bool, wallHead: bool, wallFeet: bool, velocityY: real)

  /** The velocity a jump sets: `jumpForce` upwards, `0.8 * jumpForce` for a double or wall jump. */
  datatype JumpEffect = NoJump | GroundJumped(velocityY: real) | DoubleJumped(velocityY: real) | WallJumped(velocityX: real, velocityY: real)

  datatype FrameResult = FrameResult(state: MoveState, jump: JumpEffect)

  /** A wall-jump reset is pending exactly while wall-jumping, and a wall-jumping fighter is not sliding. */
  predicate Inv(s: MoveState)
  {
    && |s.pendingResets| <= 1
    && (s.isWallJumping <==> s.pendingResets != [])
    && (s.isWallJumping ==> !s.isWallSliding)
  }

  /** `Mathf.Sign`: 1 for zero and positive values, -1 for negative ones. */
  function UnitySign(x: real): real
  {
    if x >= 0.0 then 1.0 else -1.0
  }

  /** While wall sliding, horizontal input toward the facing (the wall) is dropped. */
  function HandleInput(s: MoveState, movementX: real): (moveInput: real)
    ensures s.isWallSliding && UnitySign(movementX) == UnitySign(s.scaleX) ==> moveInput == 0.0
    ensures !(s.isWallSliding && UnitySign(movementX) == UnitySign(s.scaleX)) ==> moveInput == movementX
  {
    if s.isWallSliding && UnitySign(movementX) == UnitySign(s.scaleX) then 0.0 else movementX
  }

  /** Touching ground clears the double-jump flag. */
  function CheckGrounded(s: MoveState, groundContact: bool): (r: MoveState)
    ensures r.isGrounded == groundContact
    ensures groundContact ==> !r.hasDoubleJumped
    ensures !groundContact ==> r.hasDoubleJumped == s.hasDoubleJumped
    ensures r.isWallJumping == s.isWallJumping && r.pendingResets == s.pendingResets
  {
    if groundContact then s.(isGrounded := true, hasDoubleJumped := false) else s.(isGrounded := false)
  }

  /** The wall-slide predicate: touching a wall, airborne, falling and not wall-jumping. */
  function CheckWallSlide(s: MoveState, inp: MoveInput): (r: MoveState)
    ensures r.isWallSliding <==> (inp.wallHead || inp.wallFeet) && !s.isGrounded && inp.velocityY < 0.0 && !s.isWallJumping
    ensures r == s.(isWallSliding := r.isWallSliding)
  {
    s.(isWallSliding := (inp.wallHead || inp.wallFeet) && !s.isGrounded && inp.velocityY < 0.0 && !s.isWallJumping)
  }

  /** The facing flip: skipped while wall-jumping; a non-zero input faces its sign; zero keeps the facing. */
  function HandleMovement(s: MoveState, t: Tuning): (r: MoveState)
    ensures s.isWallJumping || s.moveInput == 0.0 ==> r == s
    ensures !s.isWallJumping && s.moveInput > 0.0 ==> r == s.(scaleX := t.originalXScale)
    ensures !s.isWallJumping && s.moveInput < 0.0 ==> r == s.(scaleX := -t.originalXScale)
  {
    if s.isWallJumping then s
    else if s.moveInput != 0.0 then s.(scaleX := t.originalXScale * UnitySign(s.moveInput))
    else s
  }

  /** Jump away from the wall, lose control and sliding, and regain the double jump. */
  function WallJump(s: MoveState, now: real, t: Tuning): (r: FrameResult)
    ensures r.state.isWallJumping && !r.state.isWallSliding && !r.state.hasDoubleJumped
    ensures r.state.moveInput == 0.0
    ensures r.state.pendingResets == s.pendingResets + [now + 0.6]
    ensures r.jump.WallJumped? && r.jump.velocityY == t.jumpForce * 0.8
    ensures t.jumpHorizontalForce > 0.0 ==> (s.scaleX > 0.0 <==> r.jump.velocityX < 0.0)
  {
    var facing := if s.scaleX > 0.0 then 1.0 else -1.0;
    var state := s.(isWallJumping := true, isWallSliding := false, moveInput := 0.0, hasDoubleJumped := false,
                    pendingResets := s.pendingResets + [now + WallJumpLock]);
    FrameResult(state, WallJumped(-facing * t.jumpHorizontalForce, t.jumpForce * 0.8))
  }

  function HandleJumping(s: MoveState, jumpPressed: bool, now: real, t: Tuning): (r: FrameResult)
    ensures !jumpPressed ==> r == FrameResult(s, NoJump)
    ensures r.jump.DoubleJumped? ==> !s.isGrounded && !s.isWallSliding && !s.hasDoubleJumped && r.state.hasDoubleJumped
    ensures r.jump.GroundJumped? ==> s.isGrounded && !s.isWallSliding && r.state == s
    ensures r.jump.WallJumped? <==> jumpPressed && s.isWallSliding
    ensures jumpPressed && s.isGrounded && !s.isWallSliding ==> r.jump == GroundJumped(t.jumpForce)
    ensures jumpPressed && !s.isGrounded && !s.isWallSliding && !s.hasDoubleJumped
        ==> r == FrameResult(s.(hasDoubleJumped := true), DoubleJumped(t.jumpForce * 0.8))
    ensures jumpPressed ==> (r.jump == NoJump <==> !s.isGrounded && !s.isWallSliding && s.hasDoubleJumped)
    ensures r.jump == NoJump ==> r.state == s
  {
    if !jumpPressed then FrameResult(s, NoJump)
    else if s.isGrounded || s.isWallSliding then
      if s.isWallSliding then WallJump(s, now, t) else FrameResult(s, GroundJumped(t.jumpForce))
    else if !s.hasDoubleJumped then FrameResult(s.(hasDoubleJumped := true), DoubleJumped(t.jumpForce * 0.8))
    else FrameResult(s, NoJump)
  }

  /** `ResetWallJump` for every reset due by `now`; the others stay pending. */
  function ResetDue(s: MoveState, now: real): (r: MoveState)
    ensures forall x :: x in r.pendingResets <==> x in s.pendingResets && x > now
    ensures r.isWallJumping <==> s.isWallJumping && forall x :: x in s.pendingResets ==> x > now
    ensures r == s.(isWallJumping := r.isWallJumping, pendingResets := r.pendingResets)
    ensures (forall k :: 0 <= k < |s.pendingResets| ==> s.pendingResets[k] > now) ==> r == s
    ensures |r.pendingResets| <= |s.pendingResets|
    decreases |s.pendingResets|
  {
    if |s.pendingResets| == 0 then s
    else
      assert forall x :: x in s.pendingResets <==> x == s.pendingResets[0] || x in s.pendingResets[1..];
      var rest := ResetDue(s.(pendingResets := s.pendingResets[1..]), now);
      if s.pendingResets[0] <= now then
        assert s.pendingResets[0] in s.pendingResets;
        rest.(isWallJumping := false)
      else rest.(pendingResets := [s.pendingResets[0]] + rest.pendingResets)
  }

  /** One frame: input, ground check, wall-slide check, facing and jumping, then the due resets. */
  function Frame(s: MoveState, inp: MoveInput, now: real, t: Tuning): (r: FrameResult)
    ensures Inv(s) ==> Inv(r.state)
    ensures inp.groundContact ==> !r.state.hasDoubleJumped
    ensures r.jump.GroundJumped? || r.jump.WallJumped? ==> !r.state.hasDoubleJumped
    ensures r.jump.DoubleJumped? ==> !inp.groundContact && !s.hasDoubleJumped
    ensures !inp.groundContact && !r.jump.WallJumped? && s.hasDoubleJumped ==> r.state.hasDoubleJumped
  {
    var withInput := s.(moveInput := HandleInput(s, inp.movementX));
    var grounded := CheckGrounded(withInput, inp.groundContact);
    var sliding := CheckWallSlide(grounded, inp);
    var moved := HandleMovement(sliding, t);
    var jumped := HandleJumping(moved, inp.jump, now, t);
    FrameResult(ResetDue(jumped.state, now), jumped.jump)
  }

  /** The wall-slide state after a frame without a wall jump is exactly the slide predicate. */
  lemma WallSlideIff(s: MoveState, inp: MoveInput, now: real, t: Tuning)
    requires Inv(s) && !Frame(s, inp, now, t).jump.WallJumped?
    ensures Frame(s, inp, now, t).state.isWallSliding
        <==> (inp.wallHead || inp.wallFeet) && !inp.groundContact && inp.velocityY < 0.0
             && !s.isWallJumping
  {
  }

  /**
   * While wall-jumping, including the frame on which the reset falls due,
   * the facing does not follow the input and no new wall jump starts.
   */
  lemma WallJumpSkipsControl(s: MoveState, inp: MoveInput, now: real, t: Tuning)
    requires Inv(s) && s.isWallJumping
    ensures Frame(s, inp, now, t).state.scaleX == s.scaleX
    ensures !Frame(s, inp, now, t).jump.WallJumped?
    ensures s.pendingResets[0] > now ==> Frame(s, inp, now, t).state.isWallJumping
  {
  }

  /** After the first frame at or after the reset time, wall-jumping is over. */
  lemma WallJumpEndsAfterLock(s: MoveState, inp: MoveInput, now: real, t: Tuning)
    requires Inv(s) && s.isWallJumping && s.pendingResets[0] <= now
    ensures !Frame(s, inp, now, t).state.isWallJumping
    ensures Frame(s, inp, now, t).state.pendingResets == []
  {
    assert forall k :: 0 <= k < |s.pendingResets| ==> s.pendingResets[k] == s.pendingResets[0];
  }

  /** A frame step together with its time. */
  datatype Step = Step(input: MoveInput, now: real)

  /** The jump effects of a run of frames. */
  function Jumps(s: MoveState, steps: seq<Step>, t: Tuning): seq<JumpEffect>
    decreases |steps|
  {
    if |steps| == 0 then []
    else
      var f := Frame(s, steps[0].input, steps[0].now, t);
      [f.jump] + Jumps(f.state, steps[1..], t)
  }

  function CountDoubleJumps(effects: seq<JumpEffect>): nat
  {
    if |effects| == 0 then 0
    else (if effects[0].DoubleJumped? then 1 else 0) + CountDoubleJumps(effects[1..])
  }

  /**
   * Airborne, at most one extra jump is possible until the fighter touches
   * ground or wall-jumps, and none once it has been used.
   */
  lemma {:induction false} AtMostOneDoubleJump(s: MoveState, steps: seq<Step>, t: Tuning)
    requires forall k :: 0 <= k < |steps| ==> !steps[k].input.groundContact
    requires forall e :: e in Jumps(s, steps, t) ==> !e.WallJumped?
    ensures CountDoubleJumps(Jumps(s, steps, t)) <= (if s.hasDoubleJumped then 0 else 1)
    decreases |steps|
  {
    if |steps| > 0 {
      var f := Frame(s, steps[0].input, steps[0].now, t);
      assert Jumps(s, steps, t) == [f.jump] + Jumps(f.state, steps[1..], t);
      assert f.jump in Jumps(s, steps, t);
      assert forall e :: e in Jumps(f.state, steps[1..], t) ==> e in Jumps(s, steps, t);
      AtMostOneDoubleJump(f.state, steps[1..], t);
      if f.jump.DoubleJumped? {
        assert f.state.hasDoubleJumped;
      }
    }
  }
}
