/** Axis-aligned bounding-box collision with positional correction: a moving
    rectangle and its velocity are pushed out of a fixed obstacle along one
    axis and turned away from it. */
module Collision {
  import opened Geometry

  /** Whether the rectangles collided, and the moving rectangle and velocity afterwards. */
  datatype Resolution = Resolution(hit: bool, rect: Rect, velocity: Vec2)

  /** The resolution of `a` (moving with `vel`) against the obstacle `b`;
      what it means is stated by `ResolveMeaning`. */
  function Resolve(a: Rect, vel: Vec2, b: Rect): (r: Resolution)
    // the size of the moving rectangle never changes
    ensures r.rect.w == a.w && r.rect.h == a.h
  {
    match Intersect(a, b)
    case None => Resolution(false, a, vel)
    case Some(inter) =>
      var to := Vec2(Center(b).x - Center(a).x, Center(b).y - Center(a).y);
      var toSign := Vec2(Sign(to.x), Sign(to.y));
      if inter.w > inter.h then
        Resolution(true, a.(y := a.y - toSign.y * inter.h), vel.(y := -toSign.y * Abs(vel.y)))
      else
        Resolution(true, a.(x := a.x - toSign.x * inter.w), vel.(x := -toSign.x * Abs(vel.x)))
  }

  /** A hit is exactly an overlap; apart, nothing changes; an overlap is
      undone along the axis where it is shallower (x on a tie), by moving
      `a` away from the centre of `b` by the overlap's depth and turning
      that velocity component away from `b` with its magnitude kept. */
  lemma ResolveMeaning(a: Rect, vel: Vec2, b: Rect)
    ensures Resolve(a, vel, b).hit <==> Overlaps(a, b)
    ensures !Resolve(a, vel, b).hit ==> Resolve(a, vel, b).rect == a && Resolve(a, vel, b).velocity == vel
    // an overlap wider than tall is resolved on y, and x is left alone
    ensures Overlaps(a, b) && Intersect(a, b).value.w > Intersect(a, b).value.h ==>
      var r, depth := Resolve(a, vel, b), Intersect(a, b).value.h;
      r.rect.x == a.x && r.velocity.x == vel.x && Abs(r.velocity.y) == Abs(vel.y) &&
      (Center(b).y >= Center(a).y ==> r.rect.y == a.y - depth && r.velocity.y <= 0.0) &&
      (Center(b).y < Center(a).y ==> r.rect.y == a.y + depth && r.velocity.y >= 0.0)
    // any other overlap, a tie included, is resolved on x, and y is left alone
    ensures Overlaps(a, b) && Intersect(a, b).value.w <= Intersect(a, b).value.h ==>
      var r, depth := Resolve(a, vel, b), Intersect(a, b).value.w;
      r.rect.y == a.y && r.velocity.y == vel.y && Abs(r.velocity.x) == Abs(vel.x) &&
      (Center(b).x >= Center(a).x ==> r.rect.x == a.x - depth && r.velocity.x <= 0.0) &&
      (Center(b).x < Center(a).x ==> r.rect.x == a.x + depth && r.velocity.x >= 0.0)
  {
  }

  /** The resolver itself: `a` and `vel` are the rectangle and velocity the
      caller lends out for update, returned here as `a'` and `vel'`. */
  method CollisionResolver(a: Rect, vel: Vec2, b: Rect) returns (hit: bool, a': Rect, vel': Vec2)
    ensures Resolution(hit, a', vel') == Resolve(a, vel, b)
  {
    a', vel' := a, vel;
    var intersection := Intersect(a, b);
    if intersection.None? {
      return false, a', vel';
    }
    var aCenter := Center(a);
    var bCenter := Center(b);
    var to := Vec2(bCenter.x - aCenter.x, bCenter.y - aCenter.y);
    var toSign := Vec2(Sign(to.x), Sign(to.y));
    if intersection.value.w > intersection.value.h {
      a' := a'.(y := a'.y - toSign.y * intersection.value.h);
      vel' := vel'.(y := -toSign.y * Abs(vel'.y));
    } else {
      a' := a'.(x := a'.x - toSign.x * intersection.value.w);
      vel' := vel'.(x := -toSign.x * Abs(vel'.x));
    }
    hit := true;
  }

  /** With equal overlap width and height the bounce is on x. */
  lemma TieResolvesOnX(a: Rect, vel: Vec2, b: Rect)
    requires Overlaps(a, b)
    requires Intersect(a, b).value.w == Intersect(a, b).value.h
    ensures Resolve(a, vel, b).rect.y == a.y && Resolve(a, vel, b).velocity.y == vel.y
    ensures Abs(Resolve(a, vel, b).velocity.x) == Abs(vel.x)
  {
    ResolveMeaning(a, vel, b);
  }

  /** Positional correction: when `a` overlaps the left edge of `b` and the
      bounce is on x, the push leaves `a` exactly touching that edge. */
  lemma {:induction false} PushOutLeavesTouching(a: Rect, vel: Vec2, b: Rect)
    requires a.x <= b.x <= Right(a) <= Right(b)
    requires Overlaps(a, b) && Intersect(a, b).value.w <= Intersect(a, b).value.h
    ensures Right(Resolve(a, vel, b).rect) == b.x
    ensures Resolve(a, vel, b).velocity.x == -Abs(vel.x)
  {
    ResolveMeaning(a, vel, b);
    var inter := Intersect(a, b).value;
    assert inter.x == b.x && Right(inter) == Right(a);
    assert Center(b).x >= Center(a).x;
  }
}
