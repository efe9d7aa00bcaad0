/** A ball: a square that moves by its velocity every tick, with corrective
    snaps at the side walls and a forced downward turn at the ceiling. */
module Balls {
  import opened Geometry

  const BALL_SIZE: real := 50.0
  const BALL_SPEED: real := 400.0

  /** What a ball is made of: its rectangle and its velocity. */
  datatype BallState = BallState(rect: Rect, velocity: Vec2)

  /** A fresh ball at `pos`. The source draws the horizontal velocity at
      random and normalises the vector; here the velocity is given. */
  function NewBall(pos: Vec2, velocity: Vec2): (b: BallState)
    ensures b.rect.x == pos.x && b.rect.y == pos.y
    ensures b.rect.w == BALL_SIZE && b.rect.h == BALL_SIZE && b.velocity == velocity
  {
    BallState(Rect(pos.x, pos.y, BALL_SIZE, BALL_SIZE), velocity)
  }

  /** The horizontal position the ball reaches before any wall rule. */
  function MovedX(s: BallState, delta: real): real
  {
    s.rect.x + s.velocity.x * delta * BALL_SPEED
  }

  /** The ball after one tick of `delta` seconds on a screen `screenWidth` wide. */
  function BallStep(s: BallState, delta: real, screenWidth: real): (t: BallState)
    // the horizontal velocity is never touched, the size neither
    ensures t.velocity.x == s.velocity.x
    ensures t.rect.w == s.rect.w && t.rect.h == s.rect.h
    // the vertical position is only integrated, never snapped
    ensures t.rect.y == s.rect.y + s.velocity.y * delta * BALL_SPEED
    // the vertical velocity changes only above the ceiling, and then to exactly 1
    ensures t.velocity.y == if t.rect.y < 0.0 then 1.0 else s.velocity.y
    // the horizontal position: the left snap to 1, then the right snap to -1
    ensures 0.0 <= MovedX(s, delta) <= screenWidth - s.rect.w ==> t.rect.x == MovedX(s, delta)
    ensures MovedX(s, delta) < 0.0 && 1.0 <= screenWidth - s.rect.w ==> t.rect.x == 1.0
    ensures MovedX(s, delta) < 0.0 && 1.0 > screenWidth - s.rect.w ==> t.rect.x == -1.0
    ensures MovedX(s, delta) > screenWidth - s.rect.w ==> t.rect.x == -1.0
  {
    var x1 := MovedX(s, delta);
    var y1 := s.rect.y + s.velocity.y * delta * BALL_SPEED;
    var x2 := if x1 < 0.0 then 1.0 else x1;
    var x3 := if x2 > screenWidth - s.rect.w then -1.0 else x2;
    var vy := if y1 < 0.0 then 1.0 else s.velocity.y;
    BallState(s.rect.(x := x3, y := y1), s.velocity.(y := vy))
  }

  /** After a tick the ball is never further left than -1, and it is left of
      the screen edge only when a wall rule put it at exactly -1. */
  lemma {:induction false} BallStepLeftBound(s: BallState, delta: real, screenWidth: real)
    ensures -1.0 <= BallStep(s, delta, screenWidth).rect.x
    ensures BallStep(s, delta, screenWidth).rect.x < 0.0 ==> BallStep(s, delta, screenWidth).rect.x == -1.0
  {
    var t := BallStep(s, delta, screenWidth);
    var x1 := MovedX(s, delta);
    if 0.0 <= x1 <= screenWidth - s.rect.w {
      assert t.rect.x == x1;
    } else if x1 < 0.0 {
      assert t.rect.x == 1.0 || t.rect.x == -1.0;
    } else {
      assert t.rect.x == -1.0;
    }
  }

  /** Crossing the right edge is not a bounce: the ball lands just past the
      left edge with its velocity unchanged. */
  lemma RightWallIsNotABounce(s: BallState, delta: real, screenWidth: real)
    requires MovedX(s, delta) > screenWidth - s.rect.w
    requires s.rect.y + s.velocity.y * delta * BALL_SPEED >= 0.0
    ensures BallStep(s, delta, screenWidth).rect.x == -1.0
    ensures BallStep(s, delta, screenWidth).velocity == s.velocity
  {
  }

  class Ball {
    var rect: Rect
    var velocity: Vec2

    function State(): BallState
      reads this
    {
      BallState(rect, velocity)
    }

    constructor (pos: Vec2, velocity: Vec2)
      ensures State() == NewBall(pos, velocity)
    {
      rect := Rect(pos.x, pos.y, BALL_SIZE, BALL_SIZE);
      this.velocity := velocity;
    }

    /** Integrates the position, then applies the two wall snaps and the
        ceiling rule in the source's order. */
    method Tick(delta: real, screenWidth: real)
      modifies this
      ensures State() == BallStep(old(State()), delta, screenWidth)
    {
      rect := rect.(x := rect.x + velocity.x * delta * BALL_SPEED);
      rect := rect.(y := rect.y + velocity.y * delta * BALL_SPEED);
      if rect.x < 0.0 {
        rect := rect.(x := 1.0);
      }
      if rect.x > screenWidth - rect.w {
        rect := rect.(x := -1.0);
      }
      if rect.y < 0.0 {
        velocity := velocity.(y := 1.0);
      }
    }
  }
}
