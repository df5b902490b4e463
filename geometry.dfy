/** Plane geometry the game relies on: macroquad's `Rect` and `Circle`, the two
    overlap tests, and Rust's `f32::clamp` and `f32::round`, all over `real`.
    The overlap tests are library code that the game only calls; their bodies here
    follow macroquad's definitions and are an assumption of the model. */
module Geometry {

  /** An axis-aligned rectangle: top-left corner (x, y), width w, height h (y grows downwards). */
  datatype Rect = Rect(x: real, y: real, w: real, h: real)

  /** A circle with centre (x, y) and radius r. */
  datatype Circle = Circle(x: real, y: real, r: real)

  /** A two-component vector, as macroquad's `Vec2`. */
  datatype Vec2 = Vec2(x: real, y: real)

  function Abs(v: real): (r: real)
    ensures r >= 0.0 && (r == v || r == -v)
  {
    if v < 0.0 then -v else v
  }

  /** `Rect::overlaps`: the closed rectangles share at least one point. For rectangles
      of non-negative size that point can be taken as the larger of the two left edges
      and the larger of the two top edges. */
  predicate RectsOverlap(a: Rect, b: Rect)
    ensures a.w >= 0.0 && a.h >= 0.0 && b.w >= 0.0 && b.h >= 0.0 ==>
      (RectsOverlap(a, b) <==>
        Contains(a, MaxReal(a.x, b.x), MaxReal(a.y, b.y)) && Contains(b, MaxReal(a.x, b.x), MaxReal(a.y, b.y)))
  {
    a.x <= b.x + b.w && a.x + a.w >= b.x && a.y <= b.y + b.h && a.y + a.h >= b.y
  }

  /** The closed rectangle holds the point (px, py). */
  predicate Contains(rect: Rect, px: real, py: real)
  {
    rect.x <= px <= rect.x + rect.w && rect.y <= py <= rect.y + rect.h
  }

  function MaxReal(a: real, b: real): real { if a < b then b else a }

  /** `Circle::overlaps_rect`: distance test from the circle's centre to the rectangle.
      An overlap puts the centre within r of the rectangle on each axis, and a centre
      inside the rectangle always overlaps. */
  predicate CircleOverlapsRect(c: Circle, rect: Rect)
    ensures CircleOverlapsRect(c, rect) ==>
      Abs(c.x - (rect.x + rect.w / 2.0)) <= rect.w / 2.0 + c.r
      && Abs(c.y - (rect.y + rect.h / 2.0)) <= rect.h / 2.0 + c.r
    ensures c.r >= 0.0 && Contains(rect, c.x, c.y) ==> CircleOverlapsRect(c, rect)
  {
    var dx := Abs(c.x - (rect.x + rect.w / 2.0));
    var dy := Abs(c.y - (rect.y + rect.h / 2.0));
    if dx > rect.w / 2.0 + c.r || dy > rect.h / 2.0 + c.r then false
    else if dx <= rect.w / 2.0 || dy <= rect.h / 2.0 then true
    else
      var ex := dx - rect.w / 2.0;
      var ey := dy - rect.h / 2.0;
      ex * ex + ey * ey <= c.r * c.r
  }

  /** The overlap test does not depend on the order of its arguments. */
  lemma RectsOverlapSymmetric(a: Rect, b: Rect)
    ensures RectsOverlap(a, b) <==> RectsOverlap(b, a)
  {
  }

  /** `f32::clamp`; Rust panics when `lo > hi`, so callers must not pass such bounds. */
  function Clamp(v: real, lo: real, hi: real): (r: real)
    requires lo <= hi
    ensures lo <= r <= hi
    ensures lo <= v <= hi ==> r == v
    ensures v < lo ==> r == lo
    ensures v > hi ==> r == hi
  {
    if v < lo then lo else if v > hi then hi else v
  }

  /** `f32::round`: the nearest integer, halfway cases rounded away from zero. */
  function Round(v: real): (r: int)
    ensures Abs(r as real - v) <= 0.5
    ensures Abs(r as real - v) == 0.5 ==> Abs(r as real) > Abs(v)
  {
    if v >= 0.0 then (v + 0.5).Floor else -((-v + 0.5).Floor)
  }
}
