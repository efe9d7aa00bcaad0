/** Vector and rectangle helpers the game takes from its graphics library.
    Coordinates are exact reals in place of 32-bit floats; y grows downwards. */
module Geometry {

  datatype Option<T> = None | Some(value: T)

  datatype Vec2 = Vec2(x: real, y: real)

  /** An axis-aligned rectangle given by its top-left corner and its size. */
  datatype Rect = Rect(x: real, y: real, w: real, h: real)

  function Min(a: real, b: real): (r: real)
    ensures r <= a && r <= b && (r == a || r == b)
  {
    if a <= b then a else b
  }

  function Max(a: real, b: real): (r: real)
    ensures r >= a && r >= b && (r == a || r == b)
  {
    if a >= b then a else b
  }

  function Abs(v: real): (r: real)
    ensures r >= 0.0 && (r == v || r == -v)
  {
    if v < 0.0 then -v else v
  }

  /** The sign of a float as the library computes it: +1 for zero and
      every positive value, -1 for every negative value. Never 0. */
  function Sign(v: real): (r: real)
    ensures r == 1.0 || r == -1.0
    ensures r == 1.0 <==> v >= 0.0
    ensures r * v == Abs(v)
  {
    if v < 0.0 then -1.0 else 1.0
  }

  function Right(r: Rect): real { r.x + r.w }

  function Bottom(r: Rect): real { r.y + r.h }

  /** The centre point: the corner plus half the size. */
  function Center(r: Rect): (c: Vec2)
    ensures c.x - r.x == Right(r) - c.x
    ensures c.y - r.y == Bottom(r) - c.y
  {
    Vec2(r.x + r.w * 0.5, r.y + r.h * 0.5)
  }

  /** True when the two rectangles share at least one point (edges that
      merely touch count, as in the library's test). */
  predicate Overlaps(a: Rect, b: Rect)
  {
    Max(a.x, b.x) <= Min(Right(a), Right(b)) && Max(a.y, b.y) <= Min(Bottom(a), Bottom(b))
  }

  /** The overlap of two rectangles: None when they are apart, otherwise the
      rectangle from the larger corner to the smaller far edge. */
  function Intersect(a: Rect, b: Rect): (r: Option<Rect>)
    ensures r.Some? <==> Overlaps(a, b)
    ensures r.Some? ==> r.value.w >= 0.0 && r.value.h >= 0.0
    ensures r.Some? ==> r.value.x >= a.x && r.value.x >= b.x && r.value.y >= a.y && r.value.y >= b.y
    ensures r.Some? ==> Right(r.value) <= Right(a) && Right(r.value) <= Right(b)
    ensures r.Some? ==> Bottom(r.value) <= Bottom(a) && Bottom(r.value) <= Bottom(b)
  {
    var left := Max(a.x, b.x);
    var top := Max(a.y, b.y);
    var right := Min(Right(a), Right(b));
    var bottom := Min(Bottom(a), Bottom(b));
    if right < left || bottom < top then None
    else Some(Rect(left, top, right - left, bottom - top))
  }

  /** Whether point `p` lies in `r`, edges included. */
  predicate Inside(p: Vec2, r: Rect)
  {
    r.x <= p.x <= Right(r) && r.y <= p.y <= Bottom(r)
  }

  /** The overlap is exactly the common part: a point lies in both
      rectangles if and only if the rectangles intersect and the point lies
      in their intersection. */
  lemma IntersectIsCommonPart(a: Rect, b: Rect, p: Vec2)
    ensures Inside(p, a) && Inside(p, b) <==> Intersect(a, b).Some? && Inside(p, Intersect(a, b).value)
  {
  }
}
