/** The player's paddle: horizontal movement under two direction keys,
    kept inside the screen by clamping. */
module Paddle {
  import opened Geometry

  const PLAYER_SPEED: real := 700.0
  const PLAYER_W: real := 150.0
  const PLAYER_H: real := 40.0

  /** The movement direction given by the left and right keys: one key alone
      moves that way, both keys or none cancel out. */
  function Direction(left: bool, right: bool): (d: real)
    ensures d == -1.0 <==> left && !right
    ensures d == 1.0 <==> !left && right
    ensures d == 0.0 <==> left == right
  {
    match (left, right)
    case (true, false) => -1.0
    case (false, true) => 1.0
    case _ => 0.0
  }

  /** The two wall checks in order: first the left edge, then the right edge
      against the current screen width. */
  function ClampX(x: real, w: real, screenWidth: real): (r: real)
    ensures r <= screenWidth - w
    ensures screenWidth >= w ==> 0.0 <= r
    ensures 0.0 <= x <= screenWidth - w ==> r == x
    ensures x > screenWidth - w ==> r == screenWidth - w
    ensures x < 0.0 && screenWidth >= w ==> r == 0.0
    // all cases at once, the narrow screen included: the right check wins
    ensures r == Min(Max(x, 0.0), screenWidth - w)
  {
    var x1 := if x < 0.0 then 0.0 else x;
    if x1 > screenWidth - w then screenWidth - w else x1
  }

  /** The paddle after one tick of `delta` seconds. */
  function PaddleStep(r: Rect, left: bool, right: bool, delta: real, screenWidth: real): (p: Rect)
    ensures p.y == r.y && p.w == r.w && p.h == r.h
    ensures screenWidth >= r.w ==> 0.0 <= p.x <= screenWidth - r.w
  {
    r.(x := ClampX(r.x + Direction(left, right) * delta * PLAYER_SPEED, r.w, screenWidth))
  }

  /** Left alone moves the paddle by -700 units per second before clamping,
      right alone by +700, and both or neither only clamp. */
  lemma PaddleMoves(r: Rect, left: bool, right: bool, delta: real, screenWidth: real)
    ensures left && !right ==>
      PaddleStep(r, left, right, delta, screenWidth).x == ClampX(r.x - delta * 700.0, r.w, screenWidth)
    ensures !left && right ==>
      PaddleStep(r, left, right, delta, screenWidth).x == ClampX(r.x + delta * 700.0, r.w, screenWidth)
    ensures left == right ==>
      PaddleStep(r, left, right, delta, screenWidth).x == ClampX(r.x, r.w, screenWidth)
  {
  }

  /** A paddle already inside the screen stays put when no key (or both) is held. */
  lemma PaddleRestsInside(r: Rect, both: bool, delta: real, screenWidth: real)
    requires 0.0 <= r.x <= screenWidth - r.w
    ensures PaddleStep(r, both, both, delta, screenWidth) == r
  {
  }

  class Player {
    var rect: Rect

    /** A paddle centred horizontally, 100 units above the bottom edge. */
    constructor (screenWidth: real, screenHeight: real)
      ensures rect == Rect(screenWidth / 2.0 - PLAYER_W * 0.5, screenHeight - 100.0, PLAYER_W, PLAYER_H)
    {
      rect := Rect(screenWidth / 2.0 - PLAYER_W * 0.5, screenHeight - 100.0, PLAYER_W, PLAYER_H);
    }

    /** Moves the paddle by the held direction, then pushes it back inside
        the left and right screen edges. */
    method Tick(left: bool, right: bool, delta: real, screenWidth: real)
      modifies this
      ensures rect == PaddleStep(old(rect), left, right, delta, screenWidth)
      ensures rect.y == old(rect.y) && rect.w == old(rect.w) && rect.h == old(rect.h)
      ensures screenWidth >= rect.w ==> 0.0 <= rect.x <= screenWidth - rect.w
    {
      var xMove := Direction(left, right);
      rect := rect.(x := rect.x + xMove * delta * PLAYER_SPEED);
      if rect.x < 0.0 {
        rect := rect.(x := 0.0);
      }
      if rect.x > screenWidth - rect.w {
        rect := rect.(x := screenWidth - rect.w);
      }
    }
  }
}
