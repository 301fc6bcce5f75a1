/** Integer rectangles as pygame's Rect keeps them, and the arithmetic the
    match engine applies to them: overlap, clamping, and the truncation that
    happens when a float is stored into a Rect field. */
module Geometry {

  /** A pygame Rect: top-left corner (x, y), width w and height h, all integers. */
  datatype Rect = Rect(x: int, y: int, w: int, h: int)

  function Left(r: Rect): int { r.x }
  function Right(r: Rect): int { r.x + r.w }
  function Top(r: Rect): int { r.y }
  function Bottom(r: Rect): int { r.y + r.h }

  /** The pixel (px, py) lies inside r (half-open on the right and bottom edges). */
  predicate Contains(r: Rect, px: int, py: int) {
    r.x <= px < r.x + r.w && r.y <= py < r.y + r.h
  }

  /** Rect.colliderect for rectangles of positive size: the two overlap with
      positive area on both axes (touching edges do not collide). */
  predicate Collides(a: Rect, b: Rect)
    ensures Right(a) == Left(b) || Right(b) == Left(a) ==> !Collides(a, b)
    ensures Bottom(a) == Top(b) || Bottom(b) == Top(a) ==> !Collides(a, b)
  {
    a.x < b.x + b.w && b.x < a.x + a.w &&
    a.y < b.y + b.h && b.y < a.y + a.h
  }

  /** Two rectangles of positive size collide exactly when some pixel lies
      inside both. */
  lemma CollidesIffSharedPixel(a: Rect, b: Rect)
    requires a.w > 0 && a.h > 0 && b.w > 0 && b.h > 0
    ensures Collides(a, b) <==> exists px, py :: Contains(a, px, py) && Contains(b, px, py)
  {
    if Collides(a, b) {
      var px := if a.x < b.x then b.x else a.x;
      var py := if a.y < b.y then b.y else a.y;
      assert Contains(a, px, py) && Contains(b, px, py);
    }
  }

  function Min(a: int, b: int): int { if a <= b then a else b }
  function Max(a: int, b: int): int { if a >= b then a else b }

  /** max(lo, min(hi, v)): the point of [lo, hi] closest to v. */
  function Clamp(v: int, lo: int, hi: int): (r: int)
    requires lo <= hi
    ensures lo <= r <= hi
    ensures lo <= v <= hi ==> r == v
    ensures v < lo ==> r == lo
    ensures hi < v ==> r == hi
  {
    Max(lo, Min(hi, v))
  }

  /** Storing a float into a Rect field keeps its integer part: truncation
      toward zero, as a C cast does. */
  function Trunc(r: real): (n: int)
    ensures 0.0 <= r ==> 0 <= n && n as real <= r < n as real + 1.0
    ensures r < 0.0 ==> n <= 0 && n as real - 1.0 < r <= n as real
  {
    if r >= 0.0 then r.Floor else -((-r).Floor)
  }

  /** Setting Rect.centery: the top edge moves to cy - h / 2. */
  function WithCenterY(r: Rect, cy: int): (s: Rect)
    ensures s.y + s.h / 2 == cy
    ensures s.(y := r.y) == r
  {
    r.(y := cy - r.h / 2)
  }

  /** Setting Rect.center: the corner moves to (cx - w / 2, cy - h / 2). */
  function WithCenter(r: Rect, cx: int, cy: int): (s: Rect)
    ensures s.x + s.w / 2 == cx && s.y + s.h / 2 == cy
    ensures s.w == r.w && s.h == r.h
  {
    r.(x := cx - r.w / 2, y := cy - r.h / 2)
  }
}
